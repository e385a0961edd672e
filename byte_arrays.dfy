/**
 * `ByteArrayUtil.kt`: concatenation, comparison, hexadecimal text and the
 * 16-byte UUID layout. SHA-256 and Base64 are library calls and appear in
 * the rest of the model as parameters.
 */
module ByteArrays {
  import opened Wrappers
  import opened JvmTypes

  /** `merge(b1, b2)`: a fresh array holding b1 followed by b2. */
  method Merge(b1: array<Byte>, b2: array<Byte>) returns (r: array<Byte>)
    ensures fresh(r)
    ensures r.Length == b1.Length + b2.Length
    ensures r[..] == b1[..] + b2[..]
  {
    r := new Byte[b1.Length + b2.Length];
    var i := 0;
    while i < b1.Length
      invariant 0 <= i <= b1.Length
      invariant r[..i] == b1[..i]
    {
      r[i] := b1[i];
      i := i + 1;
    }
    var j := 0;
    while j < b2.Length
      invariant 0 <= j <= b2.Length
      invariant r[..b1.Length] == b1[..]
      invariant r[b1.Length..b1.Length + j] == b2[..j]
    {
      r[b1.Length + j] := b2[j];
      j := j + 1;
    }
    assert r[..] == r[..b1.Length] + r[b1.Length..];
  }

  /** `equals(b1, b2)`: the same length and the same byte at every index. */
  method Equals(b1: array<Byte>, b2: array<Byte>) returns (r: bool)
    ensures r <==> b1.Length == b2.Length && forall i :: 0 <= i < b1.Length ==> b1[i] == b2[i]
    ensures r <==> b1[..] == b2[..]
  {
    if b1.Length == b2.Length {
      var i := 0;
      while i < b1.Length
        invariant 0 <= i <= b1.Length
        invariant forall k :: 0 <= k < i ==> b1[k] == b2[k]
      {
        if b1[i] != b2[i] {
          assert b1[..][i] != b2[..][i];
          return false;
        }
        i := i + 1;
      }
      assert b1[..] == b2[..];
      return true;
    } else {
      assert |b1[..]| != |b2[..]|;
      return false;
    }
  }

  /** The lower-case hexadecimal digit for a value below 16. */
  function HexDigit(n: int): (c: char)
    requires 0 <= n < 16
  {
    if n < 10 then ('0' as int + n) as char else ('a' as int + n - 10) as char
  }

  predicate IsLowerHex(c: char)
  {
    '0' <= c <= '9' || 'a' <= c <= 'f'
  }

  /** `String.format("%02x", b)`: the byte's unsigned value as exactly two lower-case digits. */
  function HexByte(b: Byte): (r: string)
    ensures |r| == 2 && IsLowerHex(r[0]) && IsLowerHex(r[1])
  {
    [HexDigit(b / 16), HexDigit(b % 16)]
  }

  /** The text `toHex` builds: two digits per byte, in order. */
  function Hex(b: seq<Byte>): (r: string)
    ensures |r| == 2 * |b|
    decreases |b|
  {
    if b == [] then [] else Hex(b[..|b| - 1]) + HexByte(b[|b| - 1])
  }

  /** `toHex(bytes)`: the loop appends the two digits of each byte in turn. */
  method ToHex(bytes: array<Byte>) returns (s: string)
    ensures s == Hex(bytes[..])
  {
    s := [];
    var i := 0;
    while i < bytes.Length
      invariant 0 <= i <= bytes.Length
      invariant s == Hex(bytes[..i])
    {
      assert bytes[..i + 1][..i] == bytes[..i];
      s := s + HexByte(bytes[i]);
      i := i + 1;
    }
    assert bytes[..bytes.Length] == bytes[..];
  }

  /** `toHex` writes the byte at index i as the characters at 2i and 2i+1, high digit first. */
  lemma {:induction false} HexAt(b: seq<Byte>, i: int)
    requires 0 <= i < |b|
    ensures Hex(b)[2 * i] == HexDigit(b[i] / 16) && Hex(b)[2 * i + 1] == HexDigit(b[i] % 16)
    decreases |b|
  {
    if i < |b| - 1 {
      HexAt(b[..|b| - 1], i);
    }
  }

  /** Every character `toHex` writes is a lower-case hexadecimal digit. */
  lemma HexIsLowerCase(b: seq<Byte>)
    ensures forall k :: 0 <= k < |Hex(b)| ==> IsLowerHex(Hex(b)[k])
  {
    forall k | 0 <= k < |Hex(b)|
      ensures IsLowerHex(Hex(b)[k])
    {
      HexAt(b, k / 2);
      assert k == 2 * (k / 2) || k == 2 * (k / 2) + 1;
    }
  }

  lemma {:induction false} HexCons(x: Byte, b: seq<Byte>)
    ensures Hex([x] + b) == HexByte(x) + Hex(b)
    decreases |b|
  {
    if b != [] {
      var c := [x] + b;
      assert c[..|c| - 1] == [x] + b[..|b| - 1];
      HexCons(x, b[..|b| - 1]);
    } else {
      assert [x] + b == [x];
      assert [x][..0] == [];
    }
  }

  /**
   * The value of one character as a base-16 digit inside `String.toInt(16)`
   * (which defers to `Integer.parseInt`): an ASCII digit or a letter a-f of
   * either case, or None for any other character. The JVM also accepts
   * other Unicode decimal digits and full-width Latin letters here; those
   * are not modelled and read as None.
   */
  function DigitValue(c: char): (r: Option<nat>)
    ensures r.Some? ==> r.value < 16
  {
    if '0' <= c <= '9' then Some(c as int - '0' as int)
    else if 'a' <= c <= 'f' then Some(c as int - 'a' as int + 10)
    else if 'A' <= c <= 'F' then Some(c as int - 'A' as int + 10)
    else None
  }

  /**
   * `String.toInt(16)` on a two-character string: an optional sign
   * followed by one digit, or two digits; None is the NumberFormatException.
   */
  function ParsePair(c0: char, c1: char): Option<int>
  {
    match DigitValue(c1)
    case None => None
    case Some(d1) =>
      if c0 == '-' then Some(0 - d1 as int)
      else if c0 == '+' then Some(d1)
      else match DigitValue(c0)
        case None => None
        case Some(d0) => Some(16 * d0 + d1)
  }

  /**
   * `fromHex(str)`: byte i is characters 2i and 2i+1 read in base 16 and
   * cut to 8 bits; a trailing odd character is ignored. None: a pair that
   * is not a number, where Kotlin throws.
   */
  function FromHex(s: string): (r: Option<seq<Byte>>)
    ensures r.Some? ==> |r.value| == |s| / 2
    decreases |s|
  {
    if |s| < 2 then Some([])
    else match ParsePair(s[0], s[1])
      case None => None
      case Some(v) =>
        match FromHex(s[2..])
        case None => None
        case Some(rest) => Some([ToByte(v)] + rest)
  }

  /** Each pair of digits `toHex` writes reads back as its byte. */
  lemma ParseHexByte(b: Byte)
    ensures ParsePair(HexByte(b)[0], HexByte(b)[1]) == Some(b)
  {
    assert DigitValue(HexDigit(b / 16)) == Some(b / 16);
    assert DigitValue(HexDigit(b % 16)) == Some(b % 16);
  }

  /** One step of `fromHex`: a readable first pair followed by readable rest. */
  lemma FromHexStep(s: string, v: int, rest: seq<Byte>)
    requires |s| >= 2 && ParsePair(s[0], s[1]) == Some(v) && FromHex(s[2..]) == Some(rest)
    ensures FromHex(s) == Some([ToByte(v)] + rest)
  {
  }

  /** Reading back what `toHex` wrote gives the bytes again. */
  lemma {:induction false} FromHexToHex(b: seq<Byte>)
    ensures FromHex(Hex(b)) == Some(b)
    decreases |b|
  {
    if b == [] {
      assert Hex(b) == [];
    } else {
      var rest := b[1..];
      assert [b[0]] + rest == b;
      HexCons(b[0], rest);
      hide Hex, HexByte, FromHex, ParsePair, DigitValue;
      var h := HexByte(b[0]);
      var s := Hex(b);
      PairThen(h, Hex(rest));
      ParseHexByte(b[0]);
      FromHexToHex(rest);
      FromHexStep(s, b[0], rest);
      assert ToByte(b[0]) == b[0];
    }
  }

  /** The first two characters of a text, and what follows them. */
  lemma PairThen(h: string, t: string)
    requires |h| == 2
    ensures (h + t)[0] == h[0] && (h + t)[1] == h[1] && (h + t)[2..] == t
  {
  }

  /** `zeroUUIDBytes()`: the nil UUID. */
  function ZeroUUIDBytes(): (r: seq<Byte>)
    ensures |r| == 16 && forall i :: 0 <= i < 16 ==> r[i] == 0
  {
    seq(16, _ => 0)
  }

  /** The 64 bits of a `Long` as an unsigned number (two's complement). */
  function Bits64(x: Long): (r: nat)
    ensures r < Pow256(8)
  {
    Pow256Widths();
    if x >= 0 then x else x + 0x1_0000_0000_0000_0000
  }

  /** `fromUUID(uuid)`: `ByteBuffer.putLong` of the most, then the least significant bits. */
  function FromUUID(msb: Long, lsb: Long): (r: seq<Byte>)
    ensures |r| == 16
  {
    BigEndian(Bits64(msb), 8) + BigEndian(Bits64(lsb), 8)
  }

  /** The 16 bytes are the two halves of the UUID, each readable back with `ByteBuffer.getLong`. */
  lemma FromUUIDHalves(msb: Long, lsb: Long)
    ensures SignedBigEndian(FromUUID(msb, lsb)[..8]) == msb
    ensures SignedBigEndian(FromUUID(msb, lsb)[8..]) == lsb
  {
    var r := FromUUID(msb, lsb);
    assert r[..8] == BigEndian(Bits64(msb), 8) && r[8..] == BigEndian(Bits64(lsb), 8);
    UnsignedBigEndian(Bits64(msb), 8);
    UnsignedBigEndian(Bits64(lsb), 8);
    Pow256Widths();
  }

  lemma {:induction false} BigEndianZero(k: nat)
    ensures BigEndian(0, k) == seq(k, _ => 0)
  {
    if k > 0 {
      BigEndianZero(k - 1);
    }
  }

  /** The zero AAGUID is the UUID whose bits are all zero. */
  lemma ZeroUUIDIsNil()
    ensures ZeroUUIDBytes() == FromUUID(0, 0)
  {
    BigEndianZero(8);
  }
}
