/**
 * The encodings `CBORUnitTest.kt` expects from `CBORUtil.kt` for numbers,
 * strings, arrays and string-key maps, and the
 * places where the reader departs from RFC 8949: simple values `readAny`
 * does not consume, the null marker read as `true`, one-byte and wider
 * arguments read as signed numbers, and lengths that make the reader throw.
 */
module CBORExamples {
  import opened Wrappers
  import opened JvmTypes
  import opened CBORBits
  import opened CBORReading
  import opened CBORWriting
  import opened CBORProperties
  import opened CBORContainers

  /** `putNumber` through the reference layout, for a value known to the caller. */
  lemma NumberExample(value: Long, major: Byte, code: Byte, arg: seq<Byte>)
    requires major == (if value < 0 then NEGATIVE_HEADER else 0)
    requires InitialCode(Magnitude(value)) == code && Argument(Magnitude(value)) == arg
    ensures NumberBytes(value) == [major + code] + arg
  {
    NumberLayout(value);
  }

  /** `number_isCorrect`: the heads `putNumber` writes, from the argument bits alone up to eight argument bytes. */
  lemma SmallNumberExamples()
    ensures NumberBytes(0) == [0x00] && NumberBytes(23) == [0x17] && NumberBytes(24) == [0x18, 0x18]
    ensures NumberBytes(-1) == [0x20] && NumberBytes(-100) == [0x38, 0x63]
  {
    hide NumberBytes;
    NumberExample(0, 0, 0, []);
    NumberExample(23, 0, 23, []);
    NumberExample(24, 0, 24, [24]);
    NumberExample(-1, 0x20, 0, []);
    NumberExample(-100, 0x20, 24, [99]);
  }

  lemma WideNumberExamples()
    ensures NumberBytes(1000) == [0x19, 0x03, 0xe8] && NumberBytes(-1000) == [0x39, 0x03, 0xe7]
    ensures NumberBytes(1000000) == [0x1a, 0x00, 0x0f, 0x42, 0x40]
  {
    hide NumberBytes;
    NumberExample(1000, 0, 25, [0x03, 0xe8]);
    NumberExample(-1000, 0x20, 25, [0x03, 0xe7]);
    NumberExample(1000000, 0, 26, [0x00, 0x0f, 0x42, 0x40]);
  }

  lemma LongNumberExample()
    ensures NumberBytes(1000000000000) == [0x1b, 0x00, 0x00, 0x00, 0xe8, 0xd4, 0xa5, 0x10, 0x00]
  {
    hide NumberBytes;
    assert BigEndian(0, 3) == [0x00, 0x00, 0x00];
    assert BigEndian(232, 4) == BigEndian(0, 3) + [0xe8];
    assert BigEndian(59604, 5) == BigEndian(232, 4) + [0xd4];
    assert BigEndian(15258789, 6) == BigEndian(59604, 5) + [0xa5];
    assert BigEndian(3906250000, 7) == BigEndian(15258789, 6) + [0x10];
    assert BigEndian(1000000000000, 8) == BigEndian(3906250000, 7) + [0x00];
    NumberExample(1000000000000, 0, 27, [0x00, 0x00, 0x00, 0xe8, 0xd4, 0xa5, 0x10, 0x00]);
  }

  /** `string_isCorrect` and `byteString_isCorrect`: the length head, then the bytes. */
  lemma StringExamples()
    ensures StringBytes([]) == [0x60] && StringBytes([0x61]) == [0x61, 0x61]
    ensures StringBytes([0x49, 0x45, 0x54, 0x46]) == [0x64, 0x49, 0x45, 0x54, 0x46]
    ensures ByteStringBytes([]) == [0x40] && ByteStringBytes([1, 2, 3, 4]) == [0x44, 1, 2, 3, 4]
  {
    LengthPrefixedLayout([], STRING_HEADER);
    LengthPrefixedLayout([0x61], STRING_HEADER);
    LengthPrefixedLayout([0x49, 0x45, 0x54, 0x46], STRING_HEADER);
    LengthPrefixedLayout([], BYTES_HEADER);
    LengthPrefixedLayout([1, 2, 3, 4], BYTES_HEADER);
    hide LengthPrefixedBytes;
  }

  /** `array_isCorrect`: `putArray` of no element, and of 1, 2, 3. */
  lemma EmptyArrayExample()
    ensures ArrayBytes([]) == Clean([0x80])
  {
    SmallHead(ARRAY_HEADER, 0);
    ArrayLayout([]);
  }

  lemma ArrayExample()
    ensures ArrayBytes([Number(1), Number(2), Number(3)]) == Clean([0x83, 1, 2, 3])
  {
    hide ArrayBytes, NumberBytes, ScalarBytes, Writable, ItemsLayout;
    ArrayOfThree([Number(1), Number(2), Number(3)]);
  }

  /** `putArray` of three numbers below 24: the head, then one byte each. */
  lemma ArrayOfThree(values: seq<Value>)
    requires |values| == 3 && forall j :: 0 <= j < 3 ==> values[j].Number? && 0 <= values[j].n <= 23
    ensures ArrayBytes(values) == Clean([0x83, values[0].n, values[1].n, values[2].n])
  {
    ItemsOfSmallNumbers(values);
    SmallHead(ARRAY_HEADER, 3);
    hide ArrayBytes, ItemsLayout, HeadLayout, ScalarBytes, NumberBytes, ItemEncodings, Run, CountHeader, ScalarOrFail, Writable;
    ArrayLayout(values);
  }

  /**
   * The third `array_isCorrect` list, 1 to 25: the head 98 19, one byte for
   * each number up to 23, then 18 18 and 18 19.
   */
  lemma LongArrayExample()
    ensures var values := seq(25, j requires 0 <= j < 25 => Number(j + 1));
      ArrayBytes(values) == Clean([0x98, 0x19] + seq(23, j requires 0 <= j < 23 => (j + 1) as Byte) + [0x18, 0x18, 0x18, 0x19])
  {
    var values := seq(25, j requires 0 <= j < 25 => Number(j + 1));
    var small, large := values[..23], values[23..];
    assert values == small + large;
    SmallItems(small);
    assert ItemsLayout(small) == seq(23, j requires 0 <= j < 23 => (j + 1) as Byte);
    assert large == [Number(24), Number(25)];
    TwoOneByteArguments();
    assert HeadLayout(ARRAY_HEADER, 25) == [0x98, 0x19];
    ItemsAppend(small, large);
    ArrayLayout(values);
    hide *;
  }

  /** 24 and 25 each take the head 18 and one argument byte. */
  lemma TwoOneByteArguments()
    ensures Writable([Number(24), Number(25)]) && ItemsLayout([Number(24), Number(25)]) == [0x18, 0x18, 0x18, 0x19]
  {
    var large := [Number(24), Number(25)];
    NumberExample(24, 0, 24, [24]);
    NumberExample(25, 0, 24, [25]);
    assert large[1..][1..] == [];
    assert Writable(large);
    assert ItemsLayout(large[1..][1..]) == [];
    assert ItemsLayout(large[1..]) == NumberBytes(25) + [];
    assert ItemsLayout(large) == NumberBytes(24) + ItemsLayout(large[1..]);
  }

  /** Numbers from 0 to 23 are written as one byte each. */
  lemma {:induction false} SmallItems(values: seq<Value>)
    requires forall j :: 0 <= j < |values| ==> values[j].Number? && 0 <= values[j].n <= 23
    ensures Writable(values) && |ItemsLayout(values)| == |values|
    ensures forall j :: 0 <= j < |values| ==> ItemsLayout(values)[j] == values[j].n
  {
    SmallNumbers(values);
    if values != [] {
      SmallItems(values[1..]);
      assert ScalarBytes(values[0]).value == [values[0].n];
      assert ItemsLayout(values) == [values[0].n] + ItemsLayout(values[1..]);
    }
  }

  /** The layout of two lists written one after the other. */
  lemma {:induction false} ItemsAppend(a: seq<Value>, b: seq<Value>)
    requires Writable(a) && Writable(b)
    ensures Writable(a + b) && ItemsLayout(a + b) == ItemsLayout(a) + ItemsLayout(b)
  {
    assert Writable(a + b) by {
      forall j | 0 <= j < |a + b| ensures ScalarBytes((a + b)[j]).Some? {
        if j < |a| { assert (a + b)[j] == a[j]; } else { assert (a + b)[j] == b[j - |a|]; }
      }
    }
    if a != [] {
      assert (a + b)[1..] == a[1..] + b;
      ItemsAppend(a[1..], b);
    } else {
      assert a + b == b;
    }
  }

  /** `map_isCorrect`: the empty string-key map is the single byte a0. */
  lemma EmptyMapExample()
    ensures StrMapBytes([]) == Clean([0xa0])
  {
    CountHeaderLayout(0, MAP_HEADER);
    SmallHead(MAP_HEADER, 0);
    RunEnd(EntryEncodings([]));
  }

  /** `map_isCorrect`: {"a": 1, "b": [2, 3]} is a2 61 61 01 61 62 82 02 03. */
  lemma MapExample()
    ensures StrMapBytes([([0x61], Number(1)), ([0x62], Array([Number(2), Number(3)]))])
      == Clean([0xa2, 0x61, 0x61, 0x01, 0x61, 0x62, 0x82, 0x02, 0x03])
  {
    hide StrMapBytes;
    FirstEntry();
    SecondEntry();
    TwoEntryMap(([0x61], Number(1)), ([0x62], Array([Number(2), Number(3)])), [0x61, 0x61, 0x01], [0x61, 0x62, 0x82, 0x02, 0x03]);
    var whole: seq<Byte> := [0xa2, 0x61, 0x61, 0x01, 0x61, 0x62, 0x82, 0x02, 0x03];
    assert [0xa2] + [0x61, 0x61, 0x01] + [0x61, 0x62, 0x82, 0x02, 0x03] == whole;
  }

  /** A map of two entries that both write cleanly: the head a2, then each entry's bytes. */
  lemma TwoEntryMap(first: (seq<Byte>, Value), second: (seq<Byte>, Value), b0: seq<Byte>, b1: seq<Byte>)
    requires EntryBytes(first.0, first.1) == Clean(b0) && EntryBytes(second.0, second.1) == Clean(b1)
    ensures StrMapBytes([first, second]) == Clean([0xa2] + b0 + b1)
  {
    SmallHead(MAP_HEADER, 2);
    CountHeaderLayout(2, MAP_HEADER);
    TwoEntries([first, second]);
    var es := [EntryBytes(first.0, first.1), EntryBytes(second.0, second.1)];
    hide EntryBytes, HeadLayout, CountHeader, Run, Then, StrMapBytes;
    RunTwo(es);
    ThenClean(CountHeader(2, MAP_HEADER), Run(es, 0));
  }

  /** `putStringKeyMap` on two entries: the count head, then the loop over both. */
  lemma TwoEntries(entries: seq<(seq<Byte>, Value)>)
    requires |entries| == 2
    ensures StrMapBytes(entries) == Then(CountHeader(2, MAP_HEADER),
      Run([EntryBytes(entries[0].0, entries[0].1), EntryBytes(entries[1].0, entries[1].1)], 0))
  {
    hide EntryBytes, CountHeader, Run, Then;
    assert ToInt(|entries|) == 2;
    assert EntryEncodings(entries) == [EntryBytes(entries[0].0, entries[0].1), EntryBytes(entries[1].0, entries[1].1)];
  }

  /** The loop of a two-entry map whose entries both write cleanly. */
  lemma RunTwo(es: seq<Emitted>)
    requires |es| == 2 && es[0].fault == NoFault && es[1].fault == NoFault
    ensures Run(es, 0) == Clean(es[0].bytes + es[1].bytes)
  {
    RunEnd(es);
    RunStep(es, 1);
    RunStep(es, 0);
  }

  /** The key "a", then 1. */
  lemma FirstEntry()
    ensures EntryBytes([0x61], Number(1)) == Clean([0x61, 0x61, 0x01])
  {
    StringExamples();
    NumberExample(1, 0, 1, []);
    hide StringBytes, NumberBytes;
  }

  /** The key "b", then the array [2, 3]. */
  lemma SecondEntry()
    ensures EntryBytes([0x62], Array([Number(2), Number(3)])) == Clean([0x61, 0x62, 0x82, 0x02, 0x03])
  {
    var pair := [Number(2), Number(3)];
    SmallItems(pair);
    assert ItemsLayout(pair) == [2, 3];
    ArrayLayout(pair);
    SmallHead(ARRAY_HEADER, 2);
    LengthPrefixedLayout([0x62], STRING_HEADER);
    SmallHead(STRING_HEADER, 1);
    hide ArrayBytes, ItemsLayout, HeadLayout, LengthPrefixedBytes;
    assert ArrayBytes(pair) == Clean([0x82, 2, 3]);
    assert StringBytes([0x62]) == [0x61, 0x62];
  }

  /** A head whose argument fits in the initial byte. */
  lemma SmallHead(major: Byte, n: nat)
    requires major % 32 == 0 && n <= 23 && major + n < 256
    ensures HeadLayout(major, n) == [major + n]
  {
  }

  lemma ItemsOfSmallNumbers(values: seq<Value>)
    requires |values| == 3 && forall j :: 0 <= j < 3 ==> values[j].Number? && 0 <= values[j].n <= 23
    ensures Writable(values) && ItemsLayout(values) == [values[0].n, values[1].n, values[2].n]
  {
    SmallNumbers(values);
    hide ScalarBytes;
    var v1 := values[1..];
    var v2 := v1[1..];
    assert v2[1..] == [];
    assert ItemsLayout(v2) == [values[2].n] + ItemsLayout(v2[1..]) == [values[2].n];
    assert ItemsLayout(v1) == [values[1].n] + ItemsLayout(v2);
  }

  /** `putNumber` writes a number below 24 as a single byte. */
  lemma SmallNumbers(values: seq<Value>)
    requires forall j :: 0 <= j < |values| ==> values[j].Number? && 0 <= values[j].n <= 23
    ensures Writable(values) && forall j :: 0 <= j < |values| ==> ScalarBytes(values[j]).value == [values[j].n]
  {
    forall j | 0 <= j < |values|
      ensures ScalarBytes(values[j]).value == [values[j].n]
    {
      NumberLayout(values[j].n);
    }
  }

  /**
   * `readAny` answers `true` or `false` for 0xf5 / 0xf4 without consuming
   * the byte, and answers `true` for the null marker 0xf6.
   */
  lemma AnySimpleValue(st: State)
    requires st.Valid() && st.cursor < |st.bytes| && st.bytes[st.cursor] in {FALSE_BITS, TRUE_BITS, NULL_BITS}
    ensures ReadAnyAt(st) == (Ok(Boolean(st.bytes[st.cursor] != FALSE_BITS)), st)
  {
    hide ReadNumberAt, ReadStringAt, ReadByteStringAt, ReadArrayAt, ReadStringKeyMapAt, ReadFloatAt, ReadDoubleAt;
  }

  /**
   * Hence `[true, false]`, which `putArray` writes as 82 f5 f4, is read
   * back as `[true, true]`: both rounds of `readArray` look at the same byte.
   */
  lemma BoolArrayExample()
    ensures ArrayBytes([Boolean(true), Boolean(false)]) == Clean([0x82, 0xf5, 0xf4])
    ensures ReadArrayAt(State([0x82, 0xf5, 0xf4], 0)) == (Ok([Boolean(true), Boolean(true)]), State([0x02, 0xf5, 0xf4], 1))
  {
    BoolArrayLayout();
    hide ArrayBytes;
    var st := State([0x82, 0xf5, 0xf4], 0);
    var st2 := BoolArrayOpening();
    hide CountAt, ReadArrayAt;
    AnySimpleValue(st2);
    hide ReadAnyAt;
    var t := Boolean(true);
    ItemsStep(st2, 2, [], Ok(t), st2);
    assert [] + [t] == [t];
    ItemsStep(st2, 1, [t], Ok(t), st2);
    assert [t] + [t] == [t, t];
    assert ReadItemsAt(st2, 0, [t, t]) == (Ok([t, t]), st2);
  }

  lemma BoolArrayLayout()
    ensures ArrayBytes([Boolean(true), Boolean(false)]) == Clean([0x82, 0xf5, 0xf4])
  {
    var bools := [Boolean(true), Boolean(false)];
    ArrayLayout(bools);
    SmallHead(ARRAY_HEADER, 2);
    assert bools[1..][1..] == [];
    assert ItemsLayout(bools) == [0xf5, 0xf4];
  }

  lemma BoolArrayOpening() returns (st2: State)
    ensures st2 == State([0x02, 0xf5, 0xf4], 1) && st2.Valid()
    ensures ReadArrayAt(State([0x82, 0xf5, 0xf4], 0)) == ReadItemsAt(st2, 2, [])
  {
    var st := State([0x82, 0xf5, 0xf4], 0);
    assert Rest(st) == HeadLayout(ARRAY_HEADER, 2) + [0xf5, 0xf4];
    CountRead(ARRAY_HEADER, 2, st, [0xf5, 0xf4]);
    st2 := State([0x02, 0xf5, 0xf4], 1);
    assert st.bytes[0 := ValueOf(0x82)] == st2.bytes;
    hide HeadLayout, CountAt;
    ArrayOpening(st, Ok(2), st2);
  }

  /**
   * `readNumber` reads a one-byte argument as a signed `Byte`: 18 80 is
   * -128, where RFC 8949 section 3 reads 128. `putNumber` never writes
   * such a head, since it moves to two argument bytes above 127.
   */
  lemma SignedArgumentExample()
    ensures ReadNumberAt(State([0x18, 0x80], 0)).0 == Ok(-128)
    ensures NumberBytes(128) == [0x19, 0x00, 0x80]
  {
    var st := State([0x18, 0x80], 0);
    assert Rest(st) == [0 + 24] + [0x80] + [];
    ArgumentRead(0, 24, [0x80], st, []);
    assert SignedBigEndian([0x80]) == -128;
    hide ReadNumberAt, SignedBigEndian;
    NumberExample(128, 0, 25, [0x00, 0x80]);
  }

  /** `readNumber` gives up on argument bits 28..31 (reserved, or indefinite length), past the initial byte. */
  lemma ReservedArgument(st: State)
    requires st.Valid() && st.cursor < |st.bytes| && ValueOf(st.bytes[st.cursor]) >= 28
    ensures ReadNumberAt(st) == (Null, State(st.bytes, st.cursor + 1))
  {
  }

  /**
   * `readNumber` gives up when the argument runs past the end of the input,
   * past the initial byte (away from the 32-bit overflow of the bounds check
   * of `readBytes`, which needs a cursor within 8 of `Int.MAX_VALUE`).
   */
  lemma ShortArgument(st: State)
    requires st.Valid() && st.cursor + 8 <= INT_MAX && st.cursor < |st.bytes| && 24 <= ValueOf(st.bytes[st.cursor]) <= 27
    requires |st.bytes| < st.cursor + 1 + ArgumentLength(ValueOf(st.bytes[st.cursor]))
    ensures ReadNumberAt(st) == (Null, State(st.bytes, st.cursor + 1))
  {
  }

  /**
   * A text string whose one-byte length is 0xff has length -1:
   * `Arrays.copyOfRange` gets an end before its start, and `readString`
   * throws instead of answering null.
   */
  lemma NegativeLengthExample()
    ensures ReadStringAt(State([0x78, 0xff], 0)).0 == Thrown
  {
    var st := State([0x78, 0xff], 0);
    var st1 := State([0x18, 0xff], 0);
    assert ReplaceNextByteAt(st, ValueOf(0x78)) == st1;
    assert Rest(st1) == [0 + 24] + [0xff] + [];
    ArgumentRead(0, 24, [0xff], st1, []);
    assert SignedBigEndian([0xff]) == -1;
    assert CountAt(st, STRING_HEADER) == (Ok(-1), State([0x18, 0xff], 2));
    hide CountAt, ReadNumberAt, SignedBigEndian;
    assert ReadBytesAt(State([0x18, 0xff], 2), -1).0 == Thrown;
  }

  /**
   * The length-prefixed readers answer null, and leave the reader as it
   * was, at the end of the input or when the next byte has another major
   * type.
   */
  lemma WrongMajorType(st: State, header: Byte)
    requires st.Valid() && (st.cursor == |st.bytes| || HeaderOf(st.bytes[st.cursor]) != header)
    ensures CountAt(st, header) == (Null, st)
    ensures header == STRING_HEADER ==> ReadStringAt(st) == (Null, st)
    ensures header == BYTES_HEADER ==> ReadByteStringAt(st) == (Null, st)
    ensures header == ARRAY_HEADER ==> ReadArrayAt(st) == (Null, st)
    ensures header == MAP_HEADER ==> ReadStringKeyMapAt(st) == (Null, st) && ReadIntKeyMapAt(st) == (Null, st)
  {
    hide ReadNumberAt;
  }

  /** `readBool` answers `false` at the end of the input, and null for any byte but f4 and f5, which it consumes. */
  lemma BoolAtEnd(st: State)
    requires st.Valid()
    ensures st.cursor == |st.bytes| ==> ReadBoolAt(st) == (Ok(false), st)
    ensures st.cursor < |st.bytes| && st.bytes[st.cursor] !in {FALSE_BITS, TRUE_BITS} ==> ReadBoolAt(st) == (Null, State(st.bytes, st.cursor + 1))
  {
  }

  /** `readNull` tests the bits of f6, so f7, fe and the break byte ff count as null too. */
  lemma NullMaskExample()
    ensures ReadNullAt(State([0xff], 0)).0 && ReadNullAt(State([0xf7], 0)).0 && !ReadNullAt(State([0xf5], 0)).0
  {
  }
}
