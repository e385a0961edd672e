/**
 * `CBORWriter`: appends CBOR encodings to an output stream. The functions
 * of `CBORWriting` give, for each `put*` call, the bytes it appends and
 * whether it stops with an exception part way; the class in `CBORWriters`
 * performs the appends and is proved to produce exactly those bytes.
 *
 * Heads (RFC 8949 section 3) are chosen by the signed ranges of Kotlin's
 * `Byte`, `Short` and `Int`: 0..23 in the initial byte; up to 127 with one
 * following byte; up to 32767 with two; up to 2^31-1 with four; larger
 * values with eight.
 */
module CBORWriting {
  import opened Wrappers
  import opened JvmTypes
  import opened CBORBits

  /** How a `put*` call ends: normally, with an `AssertionError`, or with a `ClassCastException`. */
  datatype Fault = NoFault | AssertionFailure | CastFailure

  /** The bytes a call appends before it returns or throws, and how it ends. */
  datatype Emitted = Emitted(bytes: seq<Byte>, fault: Fault)

  function Clean(bytes: seq<Byte>): Emitted
  {
    Emitted(bytes, NoFault)
  }

  /** Run `a`, then `b` unless `a` threw. */
  function Then(a: Emitted, b: Emitted): Emitted
  {
    if a.fault.NoFault? then Emitted(a.bytes + b.bytes, b.fault) else a
  }

  /** What a loop that has written `w` so far and runs `e` next ends with. */
  lemma ThenStep(w: seq<Byte>, e: Emitted, rest: Emitted)
    ensures Then(Clean(w), Then(e, rest))
         == if e.fault.NoFault? then Then(Clean(w + e.bytes), rest) else Emitted(w + e.bytes, e.fault)
  {
    if e.fault.NoFault? {
      assert w + (e.bytes + rest.bytes) == (w + e.bytes) + rest.bytes;
    }
  }

  /**
   * A CBOR head as `composePositive` builds it: the initial byte, then the
   * argument bytes (RFC 8949 section 3).
   */
  datatype Head = Head(initial: Byte, argument: seq<Byte>)

  function HeadBytes(h: Head): seq<Byte>
  {
    [h.initial] + h.argument
  }

  /**
   * `composePositive(value)`: the head with major type 0. A negative value
   * reaches the `else` branch, which throws.
   */
  function ComposePositive(value: Long): (r: Option<Head>)
    ensures r.Some? <==> value >= 0
    ensures r.Some? ==> r.value.initial < 28 && |r.value.argument| == ArgumentLength(r.value.initial)
  {
    if value < 0 then None
    else if value <= 23 then Some(Head(value, []))
    else if value <= 127 then Some(Head(24, [value]))
    else if value <= 32767 then Some(Head(25, BigEndian(value, 2)))
    else if value <= INT_MAX then Some(Head(26, BigEndian(value, 4)))
    else Some(Head(27, BigEndian(value, 8)))
  }

  /** `composeNegative(value)`: major type 1 over -1 - value; `Long.MIN_VALUE` is special-cased to the same number. */
  function ComposeNegative(value: Long): (r: Head)
    requires value < 0
    ensures HeaderOf(r.initial) == NEGATIVE_HEADER && |r.argument| == ArgumentLength(ValueOf(r.initial))
  {
    var aVal := if value == LONG_MIN then LONG_MAX else -1 - value;
    var data := ComposePositive(aVal).value;
    OrHeader(data.initial, NEGATIVE_HEADER);
    WithHeader(data, NEGATIVE_HEADER)
  }

  /** `composeNumber(value)`: a complete head for any `Long`. */
  function ComposeNumber(value: Long): (r: Head)
    ensures |r.argument| == ArgumentLength(ValueOf(r.initial))
    ensures HeaderOf(r.initial) == if value < 0 then NEGATIVE_HEADER else 0
  {
    if value >= 0 then ComposePositive(value).value else ComposeNegative(value)
  }

  /** `bytes[0] = bytes[0] or header`. */
  function WithHeader(h: Head, header: Byte): (r: Head)
    ensures r.argument == h.argument
  {
    Head(Or(h.initial, header), h.argument)
  }

  /** The head of an array or map: `composePositive(count.toLong())` with the major type ORed in. */
  function CountHeader(count: Int32, header: Byte): Emitted
  {
    match ComposePositive(count)
    case None => Emitted([], AssertionFailure)
    case Some(h) => Clean(HeadBytes(WithHeader(h, header)))
  }

  /** `putNumber(value)`. */
  function NumberBytes(value: Long): seq<Byte>
  {
    HeadBytes(ComposeNumber(value))
  }

  /** `putString(value)` and `putByteString(value)`: the length head, then the bytes. */
  function LengthPrefixedBytes(data: seq<Byte>, header: Byte): seq<Byte>
  {
    HeadBytes(WithHeader(ComposeNumber(ToInt(|data|)), header)) + data
  }

  function StringBytes(utf8: seq<Byte>): seq<Byte>
  {
    LengthPrefixedBytes(utf8, STRING_HEADER)
  }

  function ByteStringBytes(data: seq<Byte>): seq<Byte>
  {
    LengthPrefixedBytes(data, BYTES_HEADER)
  }

  /** `putFloat` / `putDouble`: the marker, then the IEEE 754 bytes. */
  function FloatBytes(bits: seq<Byte>): seq<Byte>
  {
    [FLOAT_BITS] + bits
  }

  function DoubleBytes(bits: seq<Byte>): seq<Byte>
  {
    [DOUBLE_BITS] + bits
  }

  function BoolBytes(b: bool): seq<Byte>
  {
    [if b then TRUE_BITS else FALSE_BITS]
  }

  /** The `when` arms every writer shares: `Long`, `String`, `ByteArray`, `Float`, `Double`, `Boolean`. */
  function ScalarBytes(v: Value): (r: Option<seq<Byte>>)
    ensures r.Some? <==> v.Number? || v.Text? || v.Bytes? || v.FloatBits? || v.DoubleBits? || v.Boolean?
  {
    match v
    case Number(n) => Some(NumberBytes(n))
    case Text(s) => Some(StringBytes(s))
    case Bytes(b) => Some(ByteStringBytes(b))
    case FloatBits(f) => Some(FloatBytes(f))
    case DoubleBits(d) => Some(DoubleBytes(d))
    case Boolean(b) => Some(BoolBytes(b))
    case _ => None
  }

  /** An element of `putArray` or a value of `putIntKeyMap`: anything but a scalar is an `AssertionError`. */
  function ScalarOrFail(v: Value): Emitted
  {
    match ScalarBytes(v)
    case Some(b) => Clean(b)
    case None => Emitted([], AssertionFailure)
  }

  /**
   * A `forEach` whose body may throw: the calls `es[i..]` in order, up to
   * and including the first one that throws.
   */
  function Run(es: seq<Emitted>, i: nat): Emitted
    requires i <= |es|
    decreases |es| - i
  {
    if i == |es| then Clean([]) else Then(es[i], Run(es, i + 1))
  }

  /** `es[j]` is what the `forEach` of `putArray` writes for `values[j]`. */
  predicate ItemsEncoded(values: seq<Value>, es: seq<Emitted>)
  {
    |es| == |values| && forall j {:trigger ScalarOrFail(values[j])} :: 0 <= j < |values| ==> es[j] == ScalarOrFail(values[j])
  }

  predicate EntriesEncoded(entries: seq<(seq<Byte>, Value)>, es: seq<Emitted>)
    decreases StrMap(entries), 0, 0
  {
    |es| == |entries|
    && forall j {:trigger EntryBytes(entries[j].0, entries[j].1)} :: 0 <= j < |entries| ==> es[j] == EntryBytes(entries[j].0, entries[j].1)
  }

  predicate PairsEncoded(pairs: seq<(Int32, Value)>, es: seq<Emitted>)
  {
    |es| == |pairs| && forall j {:trigger PairBytes(pairs[j].0, pairs[j].1)} :: 0 <= j < |pairs| ==> es[j] == PairBytes(pairs[j].0, pairs[j].1)
  }

  /** `putArray(values)`. */
  function ArrayBytes(values: seq<Value>): Emitted
  {
    Then(CountHeader(ToInt(|values|), ARRAY_HEADER), Run(ItemEncodings(values), 0))
  }

  /** What each round of the `forEach` of `putArray` writes. */
  function ItemEncodings(values: seq<Value>): (r: seq<Emitted>)
    ensures ItemsEncoded(values, r)
  {
    seq(|values|, j requires 0 <= j < |values| => ScalarOrFail(values[j]))
  }

  /** `putStringKeyMap(values)`: nested string-key maps and lists are written too. */
  function StrMapBytes(entries: seq<(seq<Byte>, Value)>): Emitted
    decreases StrMap(entries), 1, 0
  {
    Then(CountHeader(ToInt(|entries|), MAP_HEADER), Run(EntryEncodings(entries), 0))
  }

  /** What each round of the `forEach` of `putStringKeyMap` writes: the key, then the value. */
  function EntryEncodings(entries: seq<(seq<Byte>, Value)>): (r: seq<Emitted>)
    ensures EntriesEncoded(entries, r)
    decreases StrMap(entries), 0, 1
  {
    seq(|entries|, j requires 0 <= j < |entries| => EntryBytes(entries[j].0, entries[j].1))
  }

  function EntryBytes(key: seq<Byte>, v: Value): Emitted
    decreases v, 3, 0
  {
    Then(Clean(StringBytes(key)), MapValueBytes(v))
  }

  /**
   * The `when` of `putStringKeyMap`. An int-key map passes the unchecked
   * `as Map<String, Any>` cast; its head is written and its first key then
   * fails the cast to `String`.
   */
  function MapValueBytes(v: Value): Emitted
    decreases v, 2, 0
  {
    match v
    case StrMap(es) => StrMapBytes(es)
    case IntMap(ps) => Then(CountHeader(ToInt(|ps|), MAP_HEADER), if ps == [] then Clean([]) else Emitted([], CastFailure))
    case Array(items) => ArrayBytes(items)
    case UBytes(_) => Emitted([], AssertionFailure)
    case _ => Clean(ScalarBytes(v).value)
  }

  /** `putIntKeyMap(values)`: keys as numbers, values scalars only. */
  function IntMapBytes(pairs: seq<(Int32, Value)>): Emitted
  {
    Then(CountHeader(ToInt(|pairs|), MAP_HEADER), Run(PairEncodings(pairs), 0))
  }

  /** What each round of the `forEach` of `putIntKeyMap` writes. */
  function PairEncodings(pairs: seq<(Int32, Value)>): (r: seq<Emitted>)
    ensures PairsEncoded(pairs, r)
  {
    seq(|pairs|, j requires 0 <= j < |pairs| => PairBytes(pairs[j].0, pairs[j].1))
  }

  function PairBytes(key: Int32, v: Value): Emitted
  {
    Then(Clean(NumberBytes(key)), ScalarOrFail(v))
  }
}

module CBORWriters {
  import opened Wrappers
  import opened JvmTypes
  import opened CBORBits
  import opened CBORWriting

  /** `CBORWriter()`: `result` is the contents of its `ByteArrayOutputStream`. */
  class CBORWriter {
    var result: seq<Byte>

    constructor ()
      ensures result == []
    {
      result := [];
    }

    method PutNumber(value: Long)
      modifies this
      ensures result == old(result) + NumberBytes(value)
    {
      result := result + HeadBytes(ComposeNumber(value));
    }

    method PutLengthPrefixed(data: seq<Byte>, header: Byte)
      modifies this
      ensures result == old(result) + LengthPrefixedBytes(data, header)
    {
      hide ComposeNumber;
      var h := ComposeNumber(ToInt(|data|));
      var head := HeadBytes(h);
      head := head[0 := Or(head[0], header)];
      assert head == [Or(h.initial, header)] + h.argument by {
        assert forall k | 0 <= k < |head| :: head[k] == ([Or(h.initial, header)] + h.argument)[k];
      }
      result := result + head + data;
    }

    method PutString(utf8: seq<Byte>)
      modifies this
      ensures result == old(result) + StringBytes(utf8)
    {
      PutLengthPrefixed(utf8, STRING_HEADER);
    }

    method PutByteString(data: seq<Byte>)
      modifies this
      ensures result == old(result) + ByteStringBytes(data)
    {
      PutLengthPrefixed(data, BYTES_HEADER);
    }

    method PutFloat(bits: seq<Byte>)
      modifies this
      ensures result == old(result) + FloatBytes(bits)
    {
      result := result + [FLOAT_BITS] + bits;
    }

    method PutDouble(bits: seq<Byte>)
      modifies this
      ensures result == old(result) + DoubleBytes(bits)
    {
      result := result + [DOUBLE_BITS] + bits;
    }

    method PutNull()
      modifies this
      ensures result == old(result) + [NULL_BITS]
    {
      result := result + [NULL_BITS];
    }

    method PutBool(value: bool)
      modifies this
      ensures result == old(result) + BoolBytes(value)
    {
      if value {
        result := result + [TRUE_BITS];
      } else {
        result := result + [FALSE_BITS];
      }
    }

    method StartArray()
      modifies this
      ensures result == old(result) + [INDEFINITE_ARRAY_BITS]
    {
      result := result + [INDEFINITE_ARRAY_BITS];
    }

    method StartMap()
      modifies this
      ensures result == old(result) + [INDEFINITE_MAP_BITS]
    {
      result := result + [INDEFINITE_MAP_BITS];
    }

    method End()
      modifies this
      ensures result == old(result) + [BREAK_BITS]
    {
      result := result + [BREAK_BITS];
    }

    method Compute() returns (r: seq<Byte>)
      ensures r == result
    {
      r := result;
    }

    /** Writes the head of an array or map of `count` elements. */
    method PutCount(count: Int32, header: Byte) returns (fault: Fault)
      modifies this
      ensures result == old(result) + CountHeader(count, header).bytes
      ensures fault == CountHeader(count, header).fault
    {
      var composed := ComposePositive(count);
      if composed.None? {
        return AssertionFailure;
      }
      var head := HeadBytes(composed.value);
      head := head[0 := Or(head[0], header)];
      result := result + head;
      fault := NoFault;
    }

    /** The shared `when` arms; anything else throws `AssertionError`. */
    method PutScalar(v: Value) returns (fault: Fault)
      modifies this
      ensures result == old(result) + ScalarOrFail(v).bytes && fault == ScalarOrFail(v).fault
    {
      fault := NoFault;
      match v
      case Number(n) => PutNumber(n);
      case Text(s) => PutString(s);
      case Bytes(b) => PutByteString(b);
      case FloatBits(f) => PutFloat(f);
      case DoubleBits(d) => PutDouble(d);
      case Boolean(b) => PutBool(b);
      case _ => fault := AssertionFailure;
    }

    method PutArray(values: seq<Value>) returns (fault: Fault)
      modifies this
      ensures result == old(result) + ArrayBytes(values).bytes && fault == ArrayBytes(values).fault
    {
      hide CountHeader, ScalarOrFail;
      fault := PutCount(ToInt(|values|), ARRAY_HEADER);
      if fault == NoFault {
        fault := PutItems(values, ItemEncodings(values));
      }
    }

    /** The `forEach` of `putArray`. */
    method PutItems(values: seq<Value>, ghost es: seq<Emitted>) returns (fault: Fault)
      requires ItemsEncoded(values, es)
      modifies this
      ensures result == old(result) + Run(es, 0).bytes && fault == Run(es, 0).fault
    {
      ghost var written: seq<Byte> := [];
      assert Then(Clean(written), Run(es, 0)) == Run(es, 0);
      fault := NoFault;
      var i := 0;
      while i < |values|
        invariant 0 <= i <= |values|
        invariant result == old(result) + written
        invariant fault == NoFault
        invariant Then(Clean(written), Run(es, i)) == Run(es, 0)
      {
        ThenStep(written, es[i], Run(es, i + 1));
        fault := PutItem(values, es, i);
        if fault != NoFault {
          return;
        }
        written := written + es[i].bytes;
        i := i + 1;
      }
    }

    /** One round of the `forEach` of `putArray`. */
    method PutItem(values: seq<Value>, ghost es: seq<Emitted>, i: nat) returns (fault: Fault)
      requires ItemsEncoded(values, es) && i < |values|
      modifies this
      ensures result == old(result) + es[i].bytes && fault == es[i].fault
    {
      fault := PutScalar(values[i]);
    }

    method PutStringKeyMap(entries: seq<(seq<Byte>, Value)>) returns (fault: Fault)
      modifies this
      ensures result == old(result) + StrMapBytes(entries).bytes && fault == StrMapBytes(entries).fault
      decreases StrMap(entries), 1, 0
    {
      hide CountHeader, EntryBytes;
      fault := PutCount(ToInt(|entries|), MAP_HEADER);
      if fault == NoFault {
        fault := PutEntries(entries, EntryEncodings(entries));
      }
    }

    /** The `forEach` of `putStringKeyMap`. */
    method PutEntries(entries: seq<(seq<Byte>, Value)>, ghost es: seq<Emitted>) returns (fault: Fault)
      requires EntriesEncoded(entries, es)
      modifies this
      ensures result == old(result) + Run(es, 0).bytes && fault == Run(es, 0).fault
      decreases StrMap(entries), 0, 1
    {
      ghost var written: seq<Byte> := [];
      assert Then(Clean(written), Run(es, 0)) == Run(es, 0);
      fault := NoFault;
      var i := 0;
      while i < |entries|
        invariant 0 <= i <= |entries|
        invariant result == old(result) + written
        invariant fault == NoFault
        invariant Then(Clean(written), Run(es, i)) == Run(es, 0)
      {
        ThenStep(written, es[i], Run(es, i + 1));
        fault := PutEntry(entries, es, i);
        if fault != NoFault {
          return;
        }
        written := written + es[i].bytes;
        i := i + 1;
      }
    }

    /** One round of the `forEach` of `putStringKeyMap`: the key, then the value. */
    method PutEntry(entries: seq<(seq<Byte>, Value)>, ghost es: seq<Emitted>, i: nat) returns (fault: Fault)
      requires EntriesEncoded(entries, es) && i < |entries|
      modifies this
      ensures result == old(result) + es[i].bytes && fault == es[i].fault
      decreases StrMap(entries), 0, 0
    {
      hide StringBytes, MapValueBytes;
      PutString(entries[i].0);
      fault := PutMapValue(entries[i].1);
      assert EntryBytes(entries[i].0, entries[i].1).bytes == StringBytes(entries[i].0) + MapValueBytes(entries[i].1).bytes;
    }

    /** The `when` of `putStringKeyMap`. */
    method PutMapValue(v: Value) returns (fault: Fault)
      modifies this
      ensures result == old(result) + MapValueBytes(v).bytes && fault == MapValueBytes(v).fault
      decreases v, 2, 0
    {
      match v
      case StrMap(es) =>
        fault := PutStringKeyMap(es);
      case IntMap(ps) =>
        fault := PutCount(ToInt(|ps|), MAP_HEADER);
        if fault == NoFault && ps != [] {
          fault := CastFailure;
        }
      case Array(items) =>
        fault := PutArray(items);
      case UBytes(_) =>
        fault := AssertionFailure;
      case _ =>
        fault := PutScalar(v);
    }

    method PutIntKeyMap(pairs: seq<(Int32, Value)>) returns (fault: Fault)
      modifies this
      ensures result == old(result) + IntMapBytes(pairs).bytes && fault == IntMapBytes(pairs).fault
    {
      hide CountHeader, PairBytes;
      fault := PutCount(ToInt(|pairs|), MAP_HEADER);
      if fault == NoFault {
        fault := PutPairs(pairs, PairEncodings(pairs));
      }
    }

    /** The `forEach` of `putIntKeyMap`. */
    method PutPairs(pairs: seq<(Int32, Value)>, ghost es: seq<Emitted>) returns (fault: Fault)
      requires PairsEncoded(pairs, es)
      modifies this
      ensures result == old(result) + Run(es, 0).bytes && fault == Run(es, 0).fault
    {
      ghost var written: seq<Byte> := [];
      assert Then(Clean(written), Run(es, 0)) == Run(es, 0);
      fault := NoFault;
      var i := 0;
      while i < |pairs|
        invariant 0 <= i <= |pairs|
        invariant result == old(result) + written
        invariant fault == NoFault
        invariant Then(Clean(written), Run(es, i)) == Run(es, 0)
      {
        ThenStep(written, es[i], Run(es, i + 1));
        fault := PutPair(pairs, es, i);
        if fault != NoFault {
          return;
        }
        written := written + es[i].bytes;
        i := i + 1;
      }
    }

    /** One round of the `forEach` of `putIntKeyMap`: the key as a number, then the value. */
    method PutPair(pairs: seq<(Int32, Value)>, ghost es: seq<Emitted>, i: nat) returns (fault: Fault)
      requires PairsEncoded(pairs, es) && i < |pairs|
      modifies this
      ensures result == old(result) + es[i].bytes && fault == es[i].fault
    {
      hide NumberBytes, ScalarOrFail;
      PutNumber(pairs[i].0);
      fault := PutScalar(pairs[i].1);
      assert PairBytes(pairs[i].0, pairs[i].1).bytes == NumberBytes(pairs[i].0) + ScalarOrFail(pairs[i].1).bytes;
    }
  }
}
