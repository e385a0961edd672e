/**
 * The CBOR constants of `CBORBits` (RFC 8949 section 3: an initial byte
 * carries a 3-bit major type and a 5-bit argument) and the runtime values
 * the reader returns and the writer accepts.
 */
module CBORBits {
  import opened JvmTypes

  const FALSE_BITS: Byte := 0xf4
  const TRUE_BITS: Byte := 0xf5
  const NULL_BITS: Byte := 0xf6
  const HEADER_PART: Byte := 0xe0
  const VALUE_PART: Byte := 0x1f
  const STRING_HEADER: Byte := 0x60
  const BYTES_HEADER: Byte := 0x40
  const NEGATIVE_HEADER: Byte := 0x20
  const FLOAT_BITS: Byte := 0xfa
  const DOUBLE_BITS: Byte := 0xfb
  const ARRAY_HEADER: Byte := 0x80
  const MAP_HEADER: Byte := 0xa0
  const INDEFINITE_ARRAY_BITS: Byte := 0x9f
  const INDEFINITE_MAP_BITS: Byte := 0xbf
  const BREAK_BITS: Byte := 0xff

  /** `b and headerPart`: the major-type bits of an initial byte. */
  function HeaderOf(b: Byte): (r: Byte)
    ensures r % 32 == 0 && r <= b < r + 32
  {
    b / 32 * 32
  }

  /** `b and valuePart`: the argument bits of an initial byte. */
  function ValueOf(b: Byte): (r: Byte)
    ensures r < 32 && HeaderOf(b) + r == b
  {
    b % 32
  }

  /** How many argument bytes follow an initial byte with argument bits `value` (below 28). */
  function ArgumentLength(value: int): nat
  {
    if value <= 23 then 0 else if value == 24 then 1 else if value == 25 then 2 else if value == 26 then 4 else 8
  }

  /**
   * A Kotlin value as the CBOR code sees it through `is` checks. Text
   * strings are carried as their UTF-8 bytes; a `Float` or `Double` as its
   * IEEE 754 bytes. `UBytes` is a boxed `UByteArray`, which is not a
   * `ByteArray`.
   */
  datatype Value =
    | Number(n: Long)
    | Boolean(b: bool)
    | FloatBits(fbits: seq<Byte>)
    | DoubleBits(dbits: seq<Byte>)
    | Text(utf8: seq<Byte>)
    | Bytes(data: seq<Byte>)
    | UBytes(udata: seq<Byte>)
    | Array(items: seq<Value>)
    | StrMap(entries: seq<(seq<Byte>, Value)>)
    | IntMap(pairs: seq<(Int32, Value)>)

  /** The UTF-8 bytes of an ASCII string literal such as a map key. */
  function Ascii(s: string): (r: seq<Byte>)
    requires forall i :: 0 <= i < |s| ==> s[i] < 128 as char
    ensures |r| == |s|
    ensures forall i :: 0 <= i < |s| ==> r[i] == s[i] as int
  {
    seq(|s|, i requires 0 <= i < |s| => s[i] as int)
  }
}
