/**
 * `CBORReader`: a cursor over a byte array that decodes the CBOR subset the
 * library uses (RFC 8949 section 3). The functions ending in `At` describe
 * each reader operation on an abstract `State`; the class below performs
 * the same steps on an array and is proved to agree with them.
 *
 * Departures from RFC 8949 that the code makes and the model keeps:
 * extended arguments (1, 2, 4 or 8 following bytes) are read as SIGNED
 * numbers; `readAny` answers `true`, `false` and `null` without consuming
 * the byte, and answers `true` for `null`; the length-prefixed readers
 * overwrite the initial byte in the array with its low 5 bits.
 */
module CBORReading {
  import opened Wrappers
  import opened JvmTypes
  import opened CBORBits
  import opened LinkedMaps

  /** The reader's array contents and cursor. The array length is a JVM `Int`. */
  datatype State = State(bytes: seq<Byte>, cursor: nat)
  {
    predicate Valid() { cursor <= |bytes| <= INT_MAX }
  }

  /** `after` is a later state of the same reader: same array length, cursor not behind. */
  ghost predicate Follows(before: State, after: State)
  {
    && after.Valid()
    && |after.bytes| == |before.bytes|
    && before.cursor <= after.cursor
  }

  lemma FollowsTransitive(a: State, b: State, c: State)
    requires Follows(a, b) && Follows(b, c)
    ensures Follows(a, c)
  {
  }

  /** Number of iterations of Kotlin's `for (i in 0..max)`. */
  function Iterations(max: int): nat
  {
    if max < 0 then 0 else max + 1
  }

  function NextByteAt(st: State): (r: Option<Byte>)
    requires st.Valid()
    ensures r.Some? <==> st.cursor < |st.bytes|
    ensures r.Some? ==> r.value == st.bytes[st.cursor]
  {
    if st.cursor < |st.bytes| then Some(st.bytes[st.cursor]) else None
  }

  function ReplaceNextByteAt(st: State, b: Byte): State
    requires st.Valid() && st.cursor < |st.bytes|
  {
    State(st.bytes[st.cursor := b], st.cursor)
  }

  function ReadByteAt(st: State): (r: (Option<Byte>, State))
    requires st.Valid()
    ensures r.1.Valid() && r.1.bytes == st.bytes
    ensures r.0.Some? <==> st.cursor < |st.bytes|
    ensures r.0.Some? ==> r.0.value == st.bytes[st.cursor] && r.1.cursor == st.cursor + 1
    ensures r.0.None? ==> r.1 == st
  {
    if st.cursor < |st.bytes| then (Some(st.bytes[st.cursor]), State(st.bytes, st.cursor + 1))
    else (None, st)
  }

  /**
   * `readBytes(size)`: the guard `cursor + size - 1 < size` is evaluated in
   * 32-bit arithmetic, and `Arrays.copyOfRange` throws when its end lies
   * before its start. The result is a slice of the input that never reaches
   * past its end.
   */
  function ReadBytesAt(st: State, size: int): (r: (Outcome<seq<Byte>>, State))
    requires st.Valid() && IsInt(size)
    ensures r.0.Ok? <==> 0 <= size && st.cursor + size <= |st.bytes|
    ensures r.0.Ok? ==> r.0.value == st.bytes[st.cursor..st.cursor + size]
                         && r.1 == State(st.bytes, st.cursor + size)
    ensures !r.0.Ok? ==> r.1 == st
  {
    var last := ToInt(st.cursor + size - 1);
    if last < |st.bytes| then
      var to := ToInt(st.cursor + size);
      if to < st.cursor then (Thrown, st)
      else (Ok(st.bytes[st.cursor..to]), State(st.bytes, to))
    else (Null, st)
  }

  /**
   * `readNumber()`: consumes an initial byte and its argument. The major type
   * is only used to tell negative integers (major type 1) from the rest; the
   * argument is read as a signed big-endian number.
   */
  function ReadNumberAt(st: State): (r: (Outcome<Long>, State))
    requires st.Valid()
    ensures r.1.Valid() && r.1.bytes == st.bytes && st.cursor <= r.1.cursor
    ensures st.cursor < |st.bytes| ==> st.cursor < r.1.cursor
  {
    match ReadByteAt(st)
    case (None, st1) => (Null, st1)
    case (Some(b1), st1) =>
      var value := ValueOf(b1);
      var isNegative := HeaderOf(b1) == NEGATIVE_HEADER;
      if value <= 23 then (Ok(if isNegative then -(value + 1) else value), st1)
      else if value >= 28 then (Null, st1)
      else
        match ReadBytesAt(st1, ArgumentLength(value))
        case (Ok(b2), st2) =>
          var result := SignedBigEndian(b2);
          assert LONG_MIN <= result <= LONG_MAX by { Pow256Widths(); }
          (Ok(if isNegative then ToLong(-(ToLong(result + 1) as int)) else result), st2)
        case (Null, st2) => (Null, st2)
        case (Thrown, st2) => (Thrown, st2)
  }

  /** `readFloat()` / `readDouble()`: a marker byte, then `width` bytes holding the IEEE 754 value. */
  function ReadFixedAt(st: State, marker: Byte, width: nat): (r: (Outcome<seq<Byte>>, State))
    requires st.Valid() && width <= 8
    ensures r.1.Valid() && r.1.bytes == st.bytes && st.cursor <= r.1.cursor
    ensures r.0.Ok? ==> |r.0.value| == width
  {
    match ReadByteAt(st)
    case (None, st1) => (Null, st1)
    case (Some(b1), st1) => if b1 != marker then (Null, st1) else ReadBytesAt(st1, width)
  }

  function ReadFloatAt(st: State): (r: (Outcome<seq<Byte>>, State))
    requires st.Valid()
    ensures r.1.Valid() && r.1.bytes == st.bytes && st.cursor <= r.1.cursor
  {
    ReadFixedAt(st, FLOAT_BITS, 4)
  }

  function ReadDoubleAt(st: State): (r: (Outcome<seq<Byte>>, State))
    requires st.Valid()
    ensures r.1.Valid() && r.1.bytes == st.bytes && st.cursor <= r.1.cursor
  {
    ReadFixedAt(st, DOUBLE_BITS, 8)
  }

  /**
   * The opening shared by the length-prefixed readers: look at the next byte
   * without consuming it, give up unless its major type is `header`,
   * overwrite it with its argument bits and read it back with `readNumber()`.
   */
  function CountAt(st: State, header: Byte): (r: (Outcome<Long>, State))
    requires st.Valid()
    ensures Follows(st, r.1)
    ensures r.0.Ok? ==> st.cursor < r.1.cursor
  {
    match NextByteAt(st)
    case None => (Null, st)
    case Some(b1) =>
      if HeaderOf(b1) != header then (Null, st)
      else ReadNumberAt(ReplaceNextByteAt(st, ValueOf(b1)))
  }

  /**
   * `readByteString()` and `readString()`: check the major type without
   * consuming, overwrite the initial byte with its argument bits, read the
   * length with `readNumber()` (cut to an `Int`), then that many bytes.
   */
  function ReadLengthPrefixedAt(st: State, header: Byte): (r: (Outcome<seq<Byte>>, State))
    requires st.Valid()
    ensures Follows(st, r.1)
  {
    match CountAt(st, header)
    case (Ok(n), st2) =>
      var len := ToInt(n);
      if len == 0 then (Ok([]), st2) else ReadBytesAt(st2, len)
    case (Null, st2) => (Null, st2)
    case (Thrown, st2) => (Thrown, st2)
  }

  function ReadByteStringAt(st: State): (r: (Outcome<seq<Byte>>, State))
    requires st.Valid()
    ensures Follows(st, r.1)
  {
    ReadLengthPrefixedAt(st, BYTES_HEADER)
  }

  /** The text is returned as its UTF-8 bytes. */
  function ReadStringAt(st: State): (r: (Outcome<seq<Byte>>, State))
    requires st.Valid()
    ensures Follows(st, r.1)
  {
    ReadLengthPrefixedAt(st, STRING_HEADER)
  }

  /** `readBool()`: at the end of the input it answers `false`. */
  function ReadBoolAt(st: State): (r: (Outcome<bool>, State))
    requires st.Valid()
    ensures r.1.Valid() && r.1.bytes == st.bytes && st.cursor <= r.1.cursor
  {
    match ReadByteAt(st)
    case (None, st1) => (Ok(false), st1)
    case (Some(b1), st1) =>
      if b1 == FALSE_BITS then (Ok(false), st1)
      else if b1 == TRUE_BITS then (Ok(true), st1)
      else (Null, st1)
  }

  /** `readNull()`: true when the next byte has every bit of 0xf6 set. */
  function ReadNullAt(st: State): (r: (bool, State))
    requires st.Valid()
    ensures r.1.Valid() && r.1.bytes == st.bytes && st.cursor <= r.1.cursor
  {
    match ReadByteAt(st)
    case (None, st1) => (false, st1)
    case (Some(b1), st1) => (b1 in {0xf6, 0xf7, 0xfe, 0xff}, st1)
  }

  /** `readAny()`: dispatch on the next byte without consuming it. */
  function ReadAnyAt(st: State): (r: (Outcome<Value>, State))
    requires st.Valid()
    ensures Follows(st, r.1)
    decreases |st.bytes| - st.cursor, 2, 0
  {
    match NextByteAt(st)
    case None => (Null, st)
    case Some(v1) =>
      var v1i := Signed(v1);
      if 0 <= v1i <= 27 || 32 <= v1i <= 59 then
        var (n, st1) := ReadNumberAt(st);
        (n.Map(x => Number(x)), st1)
      else if v1 == TRUE_BITS then (Ok(Boolean(true)), st)
      else if v1 == FALSE_BITS then (Ok(Boolean(false)), st)
      else if v1 == NULL_BITS then (Ok(Boolean(true)), st)
      else if v1 == FLOAT_BITS then
        var (f, st1) := ReadFloatAt(st);
        (f.Map(b => FloatBits(b)), st1)
      else if v1 == DOUBLE_BITS then
        var (d, st1) := ReadDoubleAt(st);
        (d.Map(b => DoubleBits(b)), st1)
      else if HeaderOf(v1) == STRING_HEADER then
        var (s, st1) := ReadStringAt(st);
        (s.Map(b => Text(b)), st1)
      else if HeaderOf(v1) == BYTES_HEADER then
        var (s, st1) := ReadByteStringAt(st);
        (s.Map(b => Bytes(b)), st1)
      else if HeaderOf(v1) == ARRAY_HEADER then
        var (a, st1) := ReadArrayAt(st);
        (a.Map(items => Array(items)), st1)
      else if HeaderOf(v1) == MAP_HEADER then
        var (m, st1) := ReadStringKeyMapAt(st);
        (m.Map(entries => StrMap(entries)), st1)
      else (Null, st)
  }

  /** `readArray()`: the element count is a `Long` compared with 0, then cut to an `Int`. */
  function ReadArrayAt(st: State): (r: (Outcome<seq<Value>>, State))
    requires st.Valid()
    ensures Follows(st, r.1)
    decreases |st.bytes| - st.cursor, 1, 0
  {
    var (count, st2) := CountAt(st, ARRAY_HEADER);
    match count
    case Null => (Null, st2)
    case Thrown => (Thrown, st2)
    case Ok(c) =>
      var r := ArrayBodyAt(c, st2);
      FollowsTransitive(st, st2, r.1);
      r
  }

  /** What `readArray()` does once the count has been read. */
  function ArrayBodyAt(count: Long, st: State): (r: (Outcome<seq<Value>>, State))
    requires st.Valid()
    ensures Follows(st, r.1)
    decreases |st.bytes| - st.cursor, 4, 0
  {
    if count == 0 then (Ok([]), st) else ReadItemsAt(st, Iterations(ToInt(ToInt(count) - 1)), [])
  }

  /** The element loop of `readArray()`: k more elements to read after `acc`. */
  function ReadItemsAt(st: State, k: nat, acc: seq<Value>): (r: (Outcome<seq<Value>>, State))
    requires st.Valid()
    ensures Follows(st, r.1)
    decreases |st.bytes| - st.cursor, 3, k
  {
    if k == 0 then (Ok(acc), st)
    else
      var (v, st1) := ReadAnyAt(st);
      match v
      case Ok(x) =>
        var r := ReadItemsAt(st1, k - 1, acc + [x]);
        FollowsTransitive(st, st1, r.1);
        r
      case Null => (Null, st1)
      case Thrown => (Thrown, st1)
  }

  /** `readStringKeyMap()`: the entry count is cut to an `Int`; keys are text strings. */
  function ReadStringKeyMapAt(st: State): (r: (Outcome<seq<(seq<Byte>, Value)>>, State))
    requires st.Valid()
    ensures Follows(st, r.1)
    decreases |st.bytes| - st.cursor, 1, 0
  {
    var (count, st2) := CountAt(st, MAP_HEADER);
    match count
    case Null => (Null, st2)
    case Thrown => (Thrown, st2)
    case Ok(c) =>
      var r := StringKeyMapBodyAt(c, st2);
      FollowsTransitive(st, st2, r.1);
      r
  }

  /** What `readStringKeyMap()` does once the count has been read. */
  function StringKeyMapBodyAt(count: Long, st: State): (r: (Outcome<seq<(seq<Byte>, Value)>>, State))
    requires st.Valid()
    ensures Follows(st, r.1)
    decreases |st.bytes| - st.cursor, 4, 0
  {
    var n := ToInt(count);
    if n == 0 then (Ok([]), st) else ReadEntriesAt(st, Iterations(ToInt(n - 1)), [])
  }

  /** One round of the `readStringKeyMap()` loop: a text key, then any value. */
  function ReadEntryAt(st: State): (r: (Outcome<(seq<Byte>, Value)>, State))
    requires st.Valid()
    ensures Follows(st, r.1)
    decreases |st.bytes| - st.cursor, 3, 0
  {
    var key := ReadStringAt(st);
    var r := EntryAfterKeyAt(key.0, key.1);
    FollowsTransitive(st, key.1, r.1);
    r
  }

  /** The rest of one `readStringKeyMap()` round once the key has been read: its value, paired with it. */
  function EntryAfterKeyAt(key: Outcome<seq<Byte>>, st: State): (r: (Outcome<(seq<Byte>, Value)>, State))
    requires st.Valid()
    ensures Follows(st, r.1)
    decreases |st.bytes| - st.cursor, 2, 1
  {
    match key
    case Null => (Null, st)
    case Thrown => (Thrown, st)
    case Ok(kb) =>
      var (v, st1) := ReadAnyAt(st);
      match v
      case Ok(x) => (Ok((kb, x)), st1)
      case Null => (Null, st1)
      case Thrown => (Thrown, st1)
  }

  /** The entry loop of `readStringKeyMap()`: k more entries to read into `acc`. */
  function ReadEntriesAt(st: State, k: nat, acc: seq<(seq<Byte>, Value)>): (r: (Outcome<seq<(seq<Byte>, Value)>>, State))
    requires st.Valid()
    ensures Follows(st, r.1)
    decreases |st.bytes| - st.cursor, 3, k
  {
    if k == 0 then (Ok(acc), st)
    else
      var (e, st1) := ReadEntryAt(st);
      match e
      case Ok(kv) =>
        var r := ReadEntriesAt(st1, k - 1, Put(acc, kv.0, kv.1));
        FollowsTransitive(st, st1, r.1);
        r
      case Null => (Null, st1)
      case Thrown => (Thrown, st1)
  }

  /** `readIntKeyMap()`: like `readStringKeyMap()` with `readNumber()` keys cut to an `Int`. */
  function ReadIntKeyMapAt(st: State): (r: (Outcome<seq<(Int32, Value)>>, State))
    requires st.Valid()
    ensures Follows(st, r.1)
  {
    var (count, st2) := CountAt(st, MAP_HEADER);
    match count
    case Null => (Null, st2)
    case Thrown => (Thrown, st2)
    case Ok(c) =>
      var r := IntKeyMapBodyAt(c, st2);
      FollowsTransitive(st, st2, r.1);
      r
  }

  /** What `readIntKeyMap()` does once the count has been read. */
  function IntKeyMapBodyAt(count: Long, st: State): (r: (Outcome<seq<(Int32, Value)>>, State))
    requires st.Valid()
    ensures Follows(st, r.1)
  {
    var n := ToInt(count);
    if n == 0 then (Ok([]), st) else ReadIntEntriesAt(st, Iterations(ToInt(n - 1)), [])
  }

  /** One round of the `readIntKeyMap()` loop: a number key cut to an `Int`, then any value. */
  function ReadIntEntryAt(st: State): (r: (Outcome<(Int32, Value)>, State))
    requires st.Valid()
    ensures Follows(st, r.1)
  {
    var key := ReadNumberAt(st);
    var r := IntEntryAfterKeyAt(key.0, key.1);
    FollowsTransitive(st, key.1, r.1);
    r
  }

  function IntEntryAfterKeyAt(key: Outcome<Long>, st: State): (r: (Outcome<(Int32, Value)>, State))
    requires st.Valid()
    ensures Follows(st, r.1)
  {
    match key
    case Null => (Null, st)
    case Thrown => (Thrown, st)
    case Ok(kn) =>
      var (v, st1) := ReadAnyAt(st);
      match v
      case Ok(x) => (Ok((ToInt(kn), x)), st1)
      case Null => (Null, st1)
      case Thrown => (Thrown, st1)
  }

  /** The entry loop of `readIntKeyMap()`. */
  function ReadIntEntriesAt(st: State, k: nat, acc: seq<(Int32, Value)>): (r: (Outcome<seq<(Int32, Value)>>, State))
    requires st.Valid()
    ensures Follows(st, r.1)
    decreases k
  {
    if k == 0 then (Ok(acc), st)
    else
      var (e, st1) := ReadIntEntryAt(st);
      match e
      case Ok(kv) =>
        var r := ReadIntEntriesAt(st1, k - 1, Put(acc, kv.0, kv.1));
        FollowsTransitive(st, st1, r.1);
        r
      case Null => (Null, st1)
      case Thrown => (Thrown, st1)
  }

  /** One round of the `readArray()` loop. */
  lemma ItemsStep(st: State, k: nat, acc: seq<Value>, v: Outcome<Value>, st1: State)
    requires st.Valid() && k > 0 && (v, st1) == ReadAnyAt(st)
    ensures ReadItemsAt(st, k, acc) == if v.Ok? then ReadItemsAt(st1, k - 1, acc + [v.value]) else (if v.Null? then Null else Thrown, st1)
  {
  }

  /** One round of the `readStringKeyMap()` loop. */
  lemma EntriesStep(st: State, k: nat, acc: seq<(seq<Byte>, Value)>, e: Outcome<(seq<Byte>, Value)>, st1: State)
    requires st.Valid() && k > 0 && (e, st1) == ReadEntryAt(st)
    ensures ReadEntriesAt(st, k, acc) == if e.Ok? then ReadEntriesAt(st1, k - 1, Put(acc, e.value.0, e.value.1)) else (if e.Null? then Null else Thrown, st1)
  {
  }

  /** One round of the `readIntKeyMap()` loop. */
  lemma IntEntriesStep(st: State, k: nat, acc: seq<(Int32, Value)>, e: Outcome<(Int32, Value)>, st1: State)
    requires st.Valid() && k > 0 && (e, st1) == ReadIntEntryAt(st)
    ensures ReadIntEntriesAt(st, k, acc) == if e.Ok? then ReadIntEntriesAt(st1, k - 1, Put(acc, e.value.0, e.value.1)) else (if e.Null? then Null else Thrown, st1)
  {
  }

  /** The openings of the container readers, one step at a time. */
  lemma ContainerOpening(st: State, count: Outcome<Long>, st1: State)
    requires st.Valid() && (count, st1) == CountAt(st, MAP_HEADER) && count.Ok?
    ensures ReadIntKeyMapAt(st) == IntKeyMapBodyAt(count.value, st1)
    ensures ReadStringKeyMapAt(st) == StringKeyMapBodyAt(count.value, st1)
  {
  }

  lemma ArrayOpening(st: State, count: Outcome<Long>, st1: State)
    requires st.Valid() && (count, st1) == CountAt(st, ARRAY_HEADER) && count.Ok?
    ensures ReadArrayAt(st) == ArrayBodyAt(count.value, st1)
  {
  }
}

module CBORReaders {
  import opened Wrappers
  import opened JvmTypes
  import opened CBORBits
  import opened LinkedMaps
  import opened CBORReading

  /** `CBORReader(bytes)`: the array is shared with the caller and written to by the length-prefixed readers. */
  class CBORReader {
    const bytes: array<Byte>
    const size: int
    var cursor: int

    ghost predicate Valid()
      reads this
    {
      size == bytes.Length <= INT_MAX && 0 <= cursor <= size
    }

    /** The abstract state the `At` functions describe. */
    ghost function Current(): (st: State)
      reads this, bytes
      requires Valid()
      ensures st.Valid()
    {
      State(bytes[..], cursor)
    }

    constructor (bytes: array<Byte>)
      requires bytes.Length <= INT_MAX
      ensures Valid() && this.bytes == bytes
      ensures Current() == State(bytes[..], 0)
    {
      this.bytes := bytes;
      size := bytes.Length;
      cursor := 0;
    }

    function GetReadSize(): (r: int)
      reads this
      requires Valid()
      ensures 0 <= r <= size
    {
      cursor
    }

    /** What is left to read: together with `getReadSize()` it always makes up the array size. */
    function GetRestSize(): (r: int)
      reads this
      requires Valid()
      ensures 0 <= r <= size && GetReadSize() + r == size
    {
      size - cursor
    }

    method NextByte() returns (r: Option<Byte>)
      requires Valid()
      ensures r == NextByteAt(Current())
    {
      if cursor < size {
        r := Some(bytes[cursor]);
      } else {
        r := None;
      }
    }

    method ReplaceNextByte(value: Byte)
      requires Valid() && cursor < size
      modifies bytes
      ensures Valid() && Current() == ReplaceNextByteAt(old(Current()), value)
    {
      bytes[cursor] := value;
    }

    method ReadByte() returns (r: Option<Byte>)
      requires Valid()
      modifies this`cursor
      ensures Valid() && (r, Current()) == ReadByteAt(old(Current()))
    {
      if cursor < size {
        r := Some(bytes[cursor]);
        cursor := cursor + 1;
      } else {
        r := None;
      }
    }

    method ReadBytes(n: int) returns (r: Outcome<seq<Byte>>)
      requires Valid() && IsInt(n)
      modifies this`cursor
      ensures Valid() && (r, Current()) == ReadBytesAt(old(Current()), n)
    {
      ghost var spec := ReadBytesAt(Current(), n);
      if ToInt(cursor + n - 1) < size {
        var to := ToInt(cursor + n);
        if to < cursor {
          r := Thrown;
        } else {
          r := Ok(bytes[cursor..to]);
          cursor := to;
        }
      } else {
        r := Null;
      }
    }

    method ReadNumber() returns (r: Outcome<Long>)
      requires Valid()
      modifies this`cursor
      ensures Valid() && (r, Current()) == ReadNumberAt(old(Current()))
    {
      hide SignedBigEndian, ToLong;
      var b := ReadByte();
      if b.None? {
        return Null;
      }
      var value: int := ValueOf(b.value);
      var isNegative := HeaderOf(b.value) == NEGATIVE_HEADER;
      if value <= 23 {
        return Ok(if isNegative then -(value + 1) else value);
      }
      if value >= 28 {
        return Null;
      }
      var b2 := ReadBytes(ArgumentLength(value));
      match b2
      case Ok(arg) =>
        var result := SignedBigEndian(arg);
        Pow256Widths();
        r := Ok(if isNegative then ToLong(-(ToLong(result + 1) as int)) else result);
      case Null =>
        r := Null;
      case Thrown =>
        r := Thrown;
    }

    method ReadFixed(marker: Byte, width: nat) returns (r: Outcome<seq<Byte>>)
      requires Valid() && width <= 8
      modifies this`cursor
      ensures Valid() && (r, Current()) == ReadFixedAt(old(Current()), marker, width)
    {
      var b1 := ReadByte();
      if b1.None? || b1.value != marker {
        return Null;
      }
      r := ReadBytes(width);
    }

    method ReadFloat() returns (r: Outcome<seq<Byte>>)
      requires Valid()
      modifies this`cursor
      ensures Valid() && (r, Current()) == ReadFloatAt(old(Current()))
    {
      r := ReadFixed(FLOAT_BITS, 4);
    }

    method ReadDouble() returns (r: Outcome<seq<Byte>>)
      requires Valid()
      modifies this`cursor
      ensures Valid() && (r, Current()) == ReadDoubleAt(old(Current()))
    {
      r := ReadFixed(DOUBLE_BITS, 8);
    }

    method ReadCount(header: Byte) returns (r: Outcome<Long>)
      requires Valid()
      modifies this`cursor, bytes
      ensures Valid() && (r, Current()) == CountAt(old(Current()), header)
    {
      var b1 := NextByte();
      if b1.None? || HeaderOf(b1.value) != header {
        return Null;
      }
      ReplaceNextByte(ValueOf(b1.value));
      r := ReadNumber();
    }

    method ReadLengthPrefixed(header: Byte) returns (r: Outcome<seq<Byte>>)
      requires Valid()
      modifies this`cursor, bytes
      ensures Valid() && (r, Current()) == ReadLengthPrefixedAt(old(Current()), header)
    {
      var n := ReadCount(header);
      match n
      case Ok(count) =>
        var len := ToInt(count);
        if len == 0 {
          r := Ok([]);
        } else {
          r := ReadBytes(len);
        }
      case Null =>
        r := Null;
      case Thrown =>
        r := Thrown;
    }

    method ReadByteString() returns (r: Outcome<seq<Byte>>)
      requires Valid()
      modifies this`cursor, bytes
      ensures Valid() && (r, Current()) == ReadByteStringAt(old(Current()))
    {
      r := ReadLengthPrefixed(BYTES_HEADER);
    }

    method ReadString() returns (r: Outcome<seq<Byte>>)
      requires Valid()
      modifies this`cursor, bytes
      ensures Valid() && (r, Current()) == ReadStringAt(old(Current()))
    {
      r := ReadLengthPrefixed(STRING_HEADER);
    }

    method ReadBool() returns (r: Outcome<bool>)
      requires Valid()
      modifies this`cursor
      ensures Valid() && (r, Current()) == ReadBoolAt(old(Current()))
    {
      var b1 := ReadByte();
      if b1.None? {
        return Ok(false);
      }
      if b1.value == FALSE_BITS {
        r := Ok(false);
      } else if b1.value == TRUE_BITS {
        r := Ok(true);
      } else {
        r := Null;
      }
    }

    method ReadNull() returns (r: bool)
      requires Valid()
      modifies this`cursor
      ensures Valid() && (r, Current()) == ReadNullAt(old(Current()))
    {
      var b1 := ReadByte();
      if b1.None? {
        return false;
      }
      r := b1.value in {0xf6, 0xf7, 0xfe, 0xff};
    }

    method ReadAny() returns (r: Outcome<Value>)
      requires Valid()
      modifies this`cursor, bytes
      ensures Valid() && (r, Current()) == ReadAnyAt(old(Current()))
      decreases size - cursor, 2, 0
    {
      var b := NextByte();
      if b.None? {
        return Null;
      }
      var v1 := b.value;
      var v1i := Signed(v1);
      if 0 <= v1i <= 27 || 32 <= v1i <= 59 {
        var n := ReadNumber();
        r := n.Map(x => Number(x));
      } else if v1 == TRUE_BITS {
        r := Ok(Boolean(true));
      } else if v1 == FALSE_BITS {
        r := Ok(Boolean(false));
      } else if v1 == NULL_BITS {
        r := Ok(Boolean(true));
      } else if v1 == FLOAT_BITS {
        var f := ReadFloat();
        r := f.Map(b => FloatBits(b));
      } else if v1 == DOUBLE_BITS {
        var d := ReadDouble();
        r := d.Map(b => DoubleBits(b));
      } else if HeaderOf(v1) == STRING_HEADER {
        var s := ReadString();
        r := s.Map(b => Text(b));
      } else if HeaderOf(v1) == BYTES_HEADER {
        var s := ReadByteString();
        r := s.Map(b => Bytes(b));
      } else if HeaderOf(v1) == ARRAY_HEADER {
        var a := ReadArray();
        r := a.Map(items => Array(items));
      } else if HeaderOf(v1) == MAP_HEADER {
        var m := ReadStringKeyMap();
        r := m.Map(entries => StrMap(entries));
      } else {
        r := Null;
      }
    }

    method ReadArray() returns (r: Outcome<seq<Value>>)
      requires Valid()
      modifies this`cursor, bytes
      ensures Valid() && (r, Current()) == ReadArrayAt(old(Current()))
      decreases size - cursor, 1, 0
    {
      ghost var st0 := Current();
      var count := ReadCount(ARRAY_HEADER);
      if !count.Ok? {
        r := if count.Null? then Null else Thrown;
        return;
      }
      ArrayOpening(st0, count, Current());
      if count.value == 0 {
        return Ok([]);
      }
      r := ReadItems(Iterations(ToInt(ToInt(count.value) - 1)));
    }

    /** The `for (i in 0..max)` loop of `readArray()`, run `total` times. */
    method ReadItems(total: nat) returns (r: Outcome<seq<Value>>)
      requires Valid()
      modifies this`cursor, bytes
      ensures Valid() && (r, Current()) == ReadItemsAt(old(Current()), total, [])
      decreases size - cursor, 3, 0
    {
      ghost var goal := ReadItemsAt(Current(), total, []);
      var results: seq<Value> := [];
      var i := 0;
      while i < total
        invariant Valid() && 0 <= i <= total
        invariant old(cursor) <= cursor
        invariant ReadItemsAt(Current(), total - i, results) == goal
        decreases total - i
      {
        ghost var before := Current();
        var v := ReadAny();
        ItemsStep(before, total - i, results, v, Current());
        if !v.Ok? {
          r := if v.Null? then Null else Thrown;
          return;
        }
        results := results + [v.value];
        i := i + 1;
      }
      r := Ok(results);
    }

    method ReadStringKeyMap() returns (r: Outcome<seq<(seq<Byte>, Value)>>)
      requires Valid()
      modifies this`cursor, bytes
      ensures Valid() && (r, Current()) == ReadStringKeyMapAt(old(Current()))
      decreases size - cursor, 1, 0
    {
      ghost var st0 := Current();
      var n := ReadCount(MAP_HEADER);
      if !n.Ok? {
        r := if n.Null? then Null else Thrown;
        return;
      }
      ContainerOpening(st0, n, Current());
      var count := ToInt(n.value);
      if count == 0 {
        return Ok([]);
      }
      r := ReadEntries(Iterations(ToInt(count - 1)));
    }

    /** One round of the loop of `readStringKeyMap()`. */
    method ReadEntry() returns (r: Outcome<(seq<Byte>, Value)>)
      requires Valid()
      modifies this`cursor, bytes
      ensures Valid() && (r, Current()) == ReadEntryAt(old(Current()))
      decreases size - cursor, 3, 0
    {
      var key := ReadString();
      if !key.Ok? {
        r := if key.Null? then Null else Thrown;
        return;
      }
      var v := ReadAny();
      r := if v.Ok? then Ok((key.value, v.value)) else if v.Null? then Null else Thrown;
    }

    /** The `for (i in 0..max)` loop of `readStringKeyMap()`, run `total` times. */
    method ReadEntries(total: nat) returns (r: Outcome<seq<(seq<Byte>, Value)>>)
      requires Valid()
      modifies this`cursor, bytes
      ensures Valid() && (r, Current()) == ReadEntriesAt(old(Current()), total, [])
      decreases size - cursor, 3, 1
    {
      hide ReadEntryAt;
      ghost var goal := ReadEntriesAt(Current(), total, []);
      var results: seq<(seq<Byte>, Value)> := [];
      var i := 0;
      while i < total
        invariant Valid() && 0 <= i <= total
        invariant old(cursor) <= cursor
        invariant ReadEntriesAt(Current(), total - i, results) == goal
        decreases total - i
      {
        ghost var before := Current();
        var e := ReadEntry();
        EntriesStep(before, total - i, results, e, Current());
        if !e.Ok? {
          r := if e.Null? then Null else Thrown;
          return;
        }
        results := Put(results, e.value.0, e.value.1);
        i := i + 1;
      }
      r := Ok(results);
    }

    method ReadIntKeyMap() returns (r: Outcome<seq<(Int32, Value)>>)
      requires Valid()
      modifies this`cursor, bytes
      ensures Valid() && (r, Current()) == ReadIntKeyMapAt(old(Current()))
    {
      ghost var st0 := Current();
      var n := ReadCount(MAP_HEADER);
      if !n.Ok? {
        r := if n.Null? then Null else Thrown;
        return;
      }
      ContainerOpening(st0, n, Current());
      var count := ToInt(n.value);
      if count == 0 {
        return Ok([]);
      }
      r := ReadIntEntries(Iterations(ToInt(count - 1)));
    }

    /** One round of the loop of `readIntKeyMap()`. */
    method ReadIntEntry() returns (r: Outcome<(Int32, Value)>)
      requires Valid()
      modifies this`cursor, bytes
      ensures Valid() && (r, Current()) == ReadIntEntryAt(old(Current()))
    {
      var key := ReadNumber();
      if !key.Ok? {
        r := if key.Null? then Null else Thrown;
        return;
      }
      var v := ReadAny();
      r := if v.Ok? then Ok((ToInt(key.value), v.value)) else if v.Null? then Null else Thrown;
    }

    /** The `for (i in 0..max)` loop of `readIntKeyMap()`, run `total` times. */
    method ReadIntEntries(total: nat) returns (r: Outcome<seq<(Int32, Value)>>)
      requires Valid()
      modifies this`cursor, bytes
      ensures Valid() && (r, Current()) == ReadIntEntriesAt(old(Current()), total, [])
    {
      hide ReadIntEntryAt;
      ghost var goal := ReadIntEntriesAt(Current(), total, []);
      var results: seq<(Int32, Value)> := [];
      var i := 0;
      while i < total
        invariant Valid() && 0 <= i <= total
        invariant ReadIntEntriesAt(Current(), total - i, results) == goal
        decreases total - i
      {
        ghost var before := Current();
        var e := ReadIntEntry();
        IntEntriesStep(before, total - i, results, e, Current());
        if !e.Ok? {
          r := if e.Null? then Null else Thrown;
          return;
        }
        results := Put(results, e.value.0, e.value.1);
        i := i + 1;
      }
      r := Ok(results);
    }
  }
}
