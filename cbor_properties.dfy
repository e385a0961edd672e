/**
 * What the reader and the writer of `CBORUtil.kt` promise about each other:
 * the head layout `putNumber` chooses, round trips through the readers for
 * numbers, strings, byte strings, arrays and maps, and the places where the
 * code departs from RFC 8949.
 *
 * The round trips are stated on a reader positioned anywhere in a larger
 * array: the encoding lies at the cursor and is followed by `tail`, and
 * after reading only `tail` is left.
 */
module CBORProperties {
  import opened Wrappers
  import opened JvmTypes
  import opened CBORBits
  import opened LinkedMaps
  import opened CBORReading
  import opened CBORWriting

  /** The unread part of the reader's array. */
  ghost function Rest(st: State): seq<Byte>
    requires st.Valid()
  {
    st.bytes[st.cursor..]
  }

  /** The number `composeNumber` puts in the argument: the value, or -1 - value when it is negative. */
  function Magnitude(value: Long): nat
  {
    if value >= 0 then value else -1 - value
  }

  /** The argument bits `composePositive` chooses for n, by the signed ranges of `Byte`, `Short` and `Int`. */
  function InitialCode(n: nat): Byte
  {
    if n <= 23 then n else if n <= 127 then 24 else if n <= 32767 then 25 else if n <= INT_MAX then 26 else 27
  }

  /**
   * A head written out from first principles (RFC 8949 section 3): major
   * type bits, argument bits, then the argument big-endian in as many
   * bytes as the argument bits announce.
   */
  function HeadLayout(major: Byte, n: nat): seq<Byte>
    requires major % 32 == 0 && n <= LONG_MAX
  {
    [major + InitialCode(n)] + Argument(n)
  }

  /** The argument bytes of the head for n. */
  function Argument(n: nat): seq<Byte>
  {
    BigEndian(n, ArgumentLength(InitialCode(n)))
  }

  /** A major type in the top three bits leaves the argument bits alone. */
  lemma SplitInitial(major: Byte, code: Byte)
    requires major % 32 == 0 && code < 32 && major + code < 256
    ensures ValueOf(major + code) == code && HeaderOf(major + code) == major
  {
  }

  /** `composePositive` agrees with the reference layout. */
  lemma PositiveLayout(n: Long)
    requires n >= 0
    ensures ComposePositive(n) == Some(Head(InitialCode(n), Argument(n)))
  {
    if 24 <= n <= 127 {
      assert n / 256 == 0 && n % 256 == n;
      assert BigEndian(n, 1) == BigEndian(n / 256, 0) + [n % 256] == [n];
    }
  }

  /**
   * `putNumber` writes major type 0 for a non-negative value and major
   * type 1 over -1 - value for a negative one; the width follows from the
   * magnitude: 0..23 in the initial byte, then one byte up to 127, two up
   * to 32767, four up to 2^31 - 1, eight beyond.
   */
  lemma NumberLayout(value: Long)
    ensures NumberBytes(value) == HeadLayout(if value < 0 then NEGATIVE_HEADER else 0, Magnitude(value))
  {
    var m := Magnitude(value);
    PositiveLayout(m);
    if value < 0 {
      OrHeader(InitialCode(m), NEGATIVE_HEADER);
    }
  }

  /** The width of what `putNumber` writes. */
  lemma NumberWidth(value: Long)
    ensures var m := Magnitude(value);
            |NumberBytes(value)| == if m <= 23 then 1 else if m <= 127 then 2 else if m <= 32767 then 3 else if m <= INT_MAX then 5 else 9
  {
    NumberLayout(value);
  }

  /** `ToLong(-ToLong(n + 1))`, the negation `readNumber` applies, is -1 - n for every magnitude a `Long` can carry. */
  lemma NegateMagnitude(n: nat)
    requires n <= LONG_MAX
    ensures ToLong(-(ToLong(n + 1) as int)) == -1 - n
  {
    if n == LONG_MAX {
      assert ToLong(n + 1) == LONG_MIN;
      assert ToLong(-LONG_MIN) == LONG_MIN;
    }
  }

  /** `readNumber` on a head in the reference layout: the argument comes back, negated for major type 1. */
  lemma HeadRead(major: Byte, n: nat, st: State, tail: seq<Byte>)
    requires major == 0 || major == NEGATIVE_HEADER
    requires n <= LONG_MAX && st.Valid() && Rest(st) == HeadLayout(major, n) + tail
    ensures ReadNumberAt(st) == (Ok(if major == 0 then n else -1 - n), State(st.bytes, |st.bytes| - |tail|))
  {
    hide ReadNumberAt;
    var code := InitialCode(n);
    assert Rest(st) == [major + code] + Argument(n) + tail;
    assert st.bytes[st.cursor] == major + code;
    if code <= 23 {
      SmallNumberRead(major, code, st);
    } else {
      var k := ArgumentLength(code);
      Pow256Widths();
      SignedBigEndianOfSmall(n, k);
      NegateMagnitude(n);
      ArgumentRead(major, code, Argument(n), st, tail);
    }
  }

  /** `readNumber` on an initial byte whose argument bits are 0..23: the number is in the byte. */
  lemma SmallNumberRead(major: Byte, code: Byte, st: State)
    requires (major == 0 || major == NEGATIVE_HEADER) && code <= 23
    requires st.Valid() && st.cursor < |st.bytes| && st.bytes[st.cursor] == major + code
    ensures ReadNumberAt(st) == (Ok(if major == 0 then code else -1 - code), State(st.bytes, st.cursor + 1))
  {
    SplitInitial(major, code);
  }

  /** `readNumber` on an initial byte announcing `arg`, which it reads as a signed number. */
  lemma ArgumentRead(major: Byte, code: Byte, arg: seq<Byte>, st: State, tail: seq<Byte>)
    requires (major == 0 || major == NEGATIVE_HEADER) && 24 <= code <= 27 && |arg| == ArgumentLength(code)
    requires st.Valid() && Rest(st) == [major + code] + arg + tail
    ensures var n := SignedBigEndian(arg);
            ReadNumberAt(st) == (Ok(if major == 0 then n else ToLong(-(ToLong(n + 1) as int))), State(st.bytes, |st.bytes| - |tail|))
  {
    hide SignedBigEndian, ToLong;
    SplitInitial(major, code);
    assert st.bytes[st.cursor] == major + code;
    var st1 := State(st.bytes, st.cursor + 1);
    assert ReadByteAt(st) == (Some(major + code), st1);
    assert st.bytes[st1.cursor..st1.cursor + |arg|] == arg;
    assert ReadBytesAt(st1, |arg|) == (Ok(arg), State(st.bytes, st1.cursor + |arg|));
  }

  /** `readNumber` inverts `putNumber` for every `Long`, wherever the encoding lies. */
  lemma NumberReadAt(value: Long, st: State, tail: seq<Byte>)
    requires st.Valid() && Rest(st) == NumberBytes(value) + tail
    ensures ReadNumberAt(st) == (Ok(value), State(st.bytes, st.cursor + |NumberBytes(value)|))
  {
    NumberLayout(value);
    HeadRead(if value < 0 then NEGATIVE_HEADER else 0, Magnitude(value), st, tail);
  }

  /** `CBORReader(CBORWriter().putNumber(v).compute()).readNumber() == v`. */
  lemma NumberRoundTrip(value: Long)
    ensures ReadNumberAt(State(NumberBytes(value), 0)).0 == Ok(value)
  {
    NumberWidth(value);
    var st := State(NumberBytes(value), 0);
    assert Rest(st) == NumberBytes(value) + [];
    NumberReadAt(value, st, []);
  }

  /** The head of an array or a map: `composePositive` with the major type ORed into the initial byte. */
  lemma CountHeaderLayout(count: Int32, major: Byte)
    requires count >= 0 && major % 32 == 0
    ensures CountHeader(count, major) == Clean(HeadLayout(major, count))
  {
    PositiveLayout(count);
    OrHeader(InitialCode(count), major);
  }

  /** `putString` / `putByteString`: the length head with the major type ORed in, then the bytes. */
  lemma LengthPrefixedLayout(data: seq<Byte>, major: Byte)
    requires |data| <= INT_MAX && major % 32 == 0
    ensures LengthPrefixedBytes(data, major) == HeadLayout(major, |data|) + data
  {
    PositiveLayout(|data|);
    OrHeader(InitialCode(|data|), major);
  }

  /**
   * The opening of the length-prefixed readers on a head of major type
   * `major`: the count comes back, the initial byte in the array is left
   * holding its low 5 bits, and the cursor stands after the head.
   */
  lemma CountRead(major: Byte, n: nat, st: State, tail: seq<Byte>)
    requires major % 32 == 0 && n <= LONG_MAX && st.Valid() && Rest(st) == HeadLayout(major, n) + tail
    ensures CountAt(st, major) == (Ok(n), State(st.bytes[st.cursor := ValueOf(st.bytes[st.cursor])], |st.bytes| - |tail|))
    ensures Rest(CountAt(st, major).1) == tail
  {
    hide ReadNumberAt;
    var code := InitialCode(n);
    var arg := Argument(n);
    assert HeadLayout(major, n) == [major + code] + arg;
    assert HeadLayout(0, n) == [code] + arg;
    hide HeadLayout, Argument, InitialCode;
    RestReplaced(st, code, arg + tail);
    assert st.bytes[st.cursor] == major + code;
    SplitInitial(major, code);
    var st1 := ReplaceNextByteAt(st, code);
    HeadRead(0, n, st1, tail);
    var st2 := State(st1.bytes, |st.bytes| - |tail|);
    RestOfUpdate(st.bytes, st.cursor, code, st2.cursor);
    assert CountAt(st, major) == (Ok(n), st2);
  }

  /** Overwriting the byte at the cursor changes only the first unread byte. */
  lemma RestReplaced(st: State, b: Byte, after: seq<Byte>)
    requires st.Valid() && st.cursor < |st.bytes| && Rest(st)[1..] == after
    ensures Rest(ReplaceNextByteAt(st, b)) == [b] + after
  {
    var st1 := ReplaceNextByteAt(st, b);
    assert forall j | 0 <= j < |Rest(st1)| :: Rest(st1)[j] == ([b] + after)[j];
  }

  /** A byte overwritten behind the cursor is not part of the unread rest. */
  lemma RestOfUpdate(bytes: seq<Byte>, i: nat, b: Byte, c: nat)
    requires i < c <= |bytes| <= INT_MAX
    ensures Rest(State(bytes[i := b], c)) == Rest(State(bytes, c))
  {
  }

  /**
   * `readString` / `readByteString` invert `putString` / `putByteString`,
   * the empty string included. The only byte of the array that changes is
   * the initial byte of the head, which keeps its low 5 bits.
   */
  lemma LengthPrefixedRead(data: seq<Byte>, major: Byte, st: State, tail: seq<Byte>)
    requires major % 32 == 0 && st.Valid() && Rest(st) == LengthPrefixedBytes(data, major) + tail
    ensures ReadLengthPrefixedAt(st, major) == (Ok(data), State(st.bytes[st.cursor := ValueOf(st.bytes[st.cursor])], |st.bytes| - |tail|))
    ensures Rest(ReadLengthPrefixedAt(st, major).1) == tail
  {
    assert |data| <= |Rest(st)| <= INT_MAX;
    hide CountAt, LengthPrefixedBytes, HeadLayout, ReadLengthPrefixedAt;
    LengthPrefixedLayout(data, major);
    assert Rest(st) == HeadLayout(major, |data|) + (data + tail);
    CountRead(major, |data|, st, data + tail);
    BodyRead(data, major, st, CountAt(st, major).1, tail);
  }

  /** The part of `readString` / `readByteString` after the count. */
  lemma BodyRead(data: seq<Byte>, major: Byte, st: State, st2: State, tail: seq<Byte>)
    requires st.Valid() && st2.Valid() && |data| <= INT_MAX
    requires CountAt(st, major) == (Ok(|data|), st2) && Rest(st2) == data + tail
    ensures ReadLengthPrefixedAt(st, major) == (Ok(data), State(st2.bytes, |st.bytes| - |tail|))
    ensures Rest(ReadLengthPrefixedAt(st, major).1) == tail
  {
    hide CountAt;
    RestPrefix(st2, data, tail);
  }

  /** The first |s| unread bytes are s: reading them leaves `tail`. */
  lemma RestPrefix(st: State, s: seq<Byte>, tail: seq<Byte>)
    requires st.Valid() && Rest(st) == s + tail
    ensures st.cursor + |s| <= |st.bytes| && st.bytes[st.cursor..st.cursor + |s|] == s
    ensures State(st.bytes, st.cursor + |s|).Valid() && Rest(State(st.bytes, st.cursor + |s|)) == tail
  {
    assert st.bytes[st.cursor..st.cursor + |s|] == Rest(st)[..|s|];
  }

  /**
   * The scalars `readAny` gives back as they were written: numbers, text,
   * byte strings, and floats and doubles carried as their 4 and 8 IEEE 754
   * bytes. Booleans are not among them: `readAny` does not consume them.
   */
  predicate Readable(v: Value)
  {
    v.Number? || v.Text? || v.Bytes? || (v.FloatBits? && |v.fbits| == 4) || (v.DoubleBits? && |v.dbits| == 8)
  }

  /** `readAny` inverts the `put*` call for a readable scalar. */
  lemma ScalarRead(v: Value, st: State, tail: seq<Byte>)
    requires Readable(v) && st.Valid() && Rest(st) == ScalarBytes(v).value + tail
    ensures ReadAnyAt(st).0 == Ok(v) && Rest(ReadAnyAt(st).1) == tail
  {
    match v
    case Number(n) => NumberAnyRead(n, st, tail);
    case Text(t) => TextAnyRead(t, st, tail);
    case Bytes(d) => BytesAnyRead(d, st, tail);
    case FloatBits(f) => FixedAnyRead(v, st, tail);
    case DoubleBits(d) => FixedAnyRead(v, st, tail);
  }

  /** The dispatch of `readAny`, one arm at a time. */
  lemma AnyNumber(st: State, n: Long, st1: State)
    requires st.Valid() && st.cursor < |st.bytes| && (st.bytes[st.cursor] < 28 || 32 <= st.bytes[st.cursor] < 60)
    requires ReadNumberAt(st) == (Ok(n), st1)
    ensures ReadAnyAt(st) == (Ok(Number(n)), st1)
  {
    hide ReadNumberAt, ReadStringAt, ReadByteStringAt, ReadArrayAt, ReadStringKeyMapAt, ReadFloatAt, ReadDoubleAt;
  }

  lemma AnyText(st: State, t: seq<Byte>, st1: State)
    requires st.Valid() && st.cursor < |st.bytes| && HeaderOf(st.bytes[st.cursor]) == STRING_HEADER
    requires ReadStringAt(st) == (Ok(t), st1)
    ensures ReadAnyAt(st) == (Ok(Text(t)), st1)
  {
    hide ReadNumberAt, ReadStringAt, ReadByteStringAt, ReadArrayAt, ReadStringKeyMapAt, ReadFloatAt, ReadDoubleAt;
  }

  lemma AnyBytes(st: State, d: seq<Byte>, st1: State)
    requires st.Valid() && st.cursor < |st.bytes| && HeaderOf(st.bytes[st.cursor]) == BYTES_HEADER
    requires ReadByteStringAt(st) == (Ok(d), st1)
    ensures ReadAnyAt(st) == (Ok(Bytes(d)), st1)
  {
    hide ReadNumberAt, ReadStringAt, ReadByteStringAt, ReadArrayAt, ReadStringKeyMapAt, ReadFloatAt, ReadDoubleAt;
  }

  lemma AnyArray(st: State, items: seq<Value>, st1: State)
    requires st.Valid() && st.cursor < |st.bytes| && st.bytes[st.cursor] < 0x9c && HeaderOf(st.bytes[st.cursor]) == ARRAY_HEADER
    requires ReadArrayAt(st) == (Ok(items), st1)
    ensures ReadAnyAt(st) == (Ok(Array(items)), st1)
  {
    hide ReadNumberAt, ReadStringAt, ReadByteStringAt, ReadArrayAt, ReadStringKeyMapAt, ReadFloatAt, ReadDoubleAt;
  }

  lemma AnyStrMap(st: State, entries: seq<(seq<Byte>, Value)>, st1: State)
    requires st.Valid() && st.cursor < |st.bytes| && st.bytes[st.cursor] < 0xbc && HeaderOf(st.bytes[st.cursor]) == MAP_HEADER
    requires ReadStringKeyMapAt(st) == (Ok(entries), st1)
    ensures ReadAnyAt(st) == (Ok(StrMap(entries)), st1)
  {
    hide ReadNumberAt, ReadStringAt, ReadByteStringAt, ReadArrayAt, ReadStringKeyMapAt, ReadFloatAt, ReadDoubleAt;
  }

  lemma NumberAnyRead(n: Long, st: State, tail: seq<Byte>)
    requires st.Valid() && Rest(st) == NumberBytes(n) + tail
    ensures ReadAnyAt(st).0 == Ok(Number(n)) && Rest(ReadAnyAt(st).1) == tail
  {
    hide ReadAnyAt, ReadNumberAt, NumberBytes, Argument;
    var st1 := State(st.bytes, st.cursor + |NumberBytes(n)|);
    NumberReadAt(n, st, tail);
    assert Rest(st1) == tail;
    NumberLayout(n);
    var b := NumberBytes(n)[0];
    assert b == (if n < 0 then NEGATIVE_HEADER else 0) + InitialCode(Magnitude(n));
    assert st.bytes[st.cursor] == b;
    AnyNumber(st, n, st1);
  }

  lemma TextAnyRead(t: seq<Byte>, st: State, tail: seq<Byte>)
    requires st.Valid() && Rest(st) == StringBytes(t) + tail
    ensures ReadAnyAt(st).0 == Ok(Text(t)) && Rest(ReadAnyAt(st).1) == tail
  {
    assert |t| <= |Rest(st)|;
    LengthPrefixedLayout(t, STRING_HEADER);
    SplitInitial(STRING_HEADER, InitialCode(|t|));
    assert st.bytes[st.cursor] == StringBytes(t)[0];
    LengthPrefixedRead(t, STRING_HEADER, st, tail);
    hide ReadAnyAt, ReadLengthPrefixedAt, LengthPrefixedBytes, HeadLayout;
    AnyText(st, t, ReadStringAt(st).1);
  }

  lemma BytesAnyRead(d: seq<Byte>, st: State, tail: seq<Byte>)
    requires st.Valid() && Rest(st) == ByteStringBytes(d) + tail
    ensures ReadAnyAt(st).0 == Ok(Bytes(d)) && Rest(ReadAnyAt(st).1) == tail
  {
    assert |d| <= |Rest(st)|;
    LengthPrefixedLayout(d, BYTES_HEADER);
    SplitInitial(BYTES_HEADER, InitialCode(|d|));
    assert st.bytes[st.cursor] == ByteStringBytes(d)[0];
    LengthPrefixedRead(d, BYTES_HEADER, st, tail);
    hide ReadAnyAt, ReadLengthPrefixedAt, LengthPrefixedBytes, HeadLayout;
    AnyBytes(st, d, ReadByteStringAt(st).1);
  }

  lemma FixedAnyRead(v: Value, st: State, tail: seq<Byte>)
    requires (v.FloatBits? && |v.fbits| == 4) || (v.DoubleBits? && |v.dbits| == 8)
    requires st.Valid() && Rest(st) == ScalarBytes(v).value + tail
    ensures ReadAnyAt(st).0 == Ok(v) && Rest(ReadAnyAt(st).1) == tail
  {
    var bits := if v.FloatBits? then v.fbits else v.dbits;
    var c := st.cursor + 1 + |bits|;
    assert st.bytes[st.cursor] == if v.FloatBits? then FLOAT_BITS else DOUBLE_BITS;
    assert st.bytes[st.cursor + 1..c] == bits;
    assert Rest(State(st.bytes, c)) == tail;
    hide ReadArrayAt, ReadStringKeyMapAt, ReadStringAt, ReadByteStringAt, ReadNumberAt;
  }
}
