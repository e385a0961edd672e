/**
 * The fixed-width JVM types the Kotlin code works with, written out over
 * unbounded integers: bytes, `Int` and `Long` with their wrap-around, and
 * the big-endian byte layouts `ByteBuffer` reads and writes.
 */
module JvmTypes {
  /** A JVM byte seen through `toInt() and 0xff`: its unsigned value. */
  type Byte = b: int | 0 <= b < 256

  const INT_MIN: int := -0x8000_0000
  const INT_MAX: int := 0x7fff_ffff
  const LONG_MIN: int := -0x8000_0000_0000_0000
  const LONG_MAX: int := 0x7fff_ffff_ffff_ffff

  /** A Kotlin `Long`. */
  type Long = x: int | LONG_MIN <= x <= LONG_MAX

  predicate IsInt(x: int) { INT_MIN <= x <= INT_MAX }

  /** A Kotlin `Int`. */
  type Int32 = x: int | INT_MIN <= x <= INT_MAX

  /** `Byte.toInt()`: the two's-complement value of a byte, sign-extended. */
  function Signed(b: Byte): (r: int)
    ensures -128 <= r < 128
    ensures ToByte(r) == b
    ensures (r < 0) == (b >= 0x80)
  {
    if b < 0x80 then b else b - 0x100
  }

  /** `Int.toByte()` / `Long.toByte()`: keep the low 8 bits. */
  function ToByte(x: int): Byte
  {
    x % 0x100
  }

  /** `Long.toInt()` and 32-bit `Int` arithmetic: keep the low 32 bits, read them as signed. */
  function ToInt(x: int): (r: int)
    ensures IsInt(r)
    ensures IsInt(x) ==> r == x
  {
    (x - INT_MIN) % 0x1_0000_0000 + INT_MIN
  }

  /** 64-bit `Long` arithmetic: keep the low 64 bits, read them as signed. */
  function ToLong(x: int): (r: Long)
    ensures LONG_MIN <= x <= LONG_MAX ==> r == x
  {
    (x - LONG_MIN) % 0x1_0000_0000_0000_0000 + LONG_MIN
  }

  /** 256 to the power k. */
  function Pow256(k: nat): (r: nat)
    ensures r >= 1
  {
    if k == 0 then 1 else 256 * Pow256(k - 1)
  }

  lemma Pow256Widths()
    ensures Pow256(1) == 0x100 && Pow256(2) == 0x1_0000
    ensures Pow256(4) == 0x1_0000_0000 && Pow256(8) == 0x1_0000_0000_0000_0000
  {
    assert Pow256(2) == 0x1_0000;
    assert Pow256(4) == 0x1_0000_0000;
    assert Pow256(8) == 0x1_0000_0000_0000_0000;
  }

  /** The k low-order bytes of n, most significant first (what `ByteBuffer.put*` writes). */
  function BigEndian(n: nat, k: nat): (r: seq<Byte>)
    ensures |r| == k
  {
    if k == 0 then [] else BigEndian(n / 256, k - 1) + [n % 256]
  }

  /** The unsigned number a big-endian byte sequence denotes. */
  function Unsigned(s: seq<Byte>): (r: nat)
    ensures r < Pow256(|s|)
  {
    if s == [] then 0 else Unsigned(s[..|s| - 1]) * 256 + s[|s| - 1]
  }

  /** The two's-complement number a big-endian byte sequence denotes (what `ByteBuffer.get*` reads). */
  function SignedBigEndian(s: seq<Byte>): (r: int)
    requires |s| > 0
    ensures -((Pow256(|s|) / 2) as int) <= r < Pow256(|s|) / 2
  {
    Pow256Even(|s|);
    var u := Unsigned(s);
    if u < Pow256(|s|) / 2 then u else u - Pow256(|s|)
  }

  lemma Pow256Even(k: nat)
    requires k > 0
    ensures Pow256(k) % 2 == 0
  {
  }

  /** Reading back what was written: the low k bytes of n denote n when n fits in k bytes. */
  lemma {:induction false} UnsignedBigEndian(n: nat, k: nat)
    requires n < Pow256(k)
    ensures Unsigned(BigEndian(n, k)) == n
  {
    if k > 0 {
      var q, m := n / 256, n % 256;
      DivMod256(n);
      var s := BigEndian(n, k);
      var t := BigEndian(q, k - 1);
      assert s == t + [m];
      assert s[..k - 1] == t && s[k - 1] == m;
      assert q < Pow256(k - 1) by { DivBound(n, Pow256(k - 1)); }
      hide BigEndian, Pow256;
      UnsignedBigEndian(q, k - 1);
      assert Unsigned(s) == Unsigned(t) * 256 + m;
    }
  }

  lemma DivMod256(n: nat)
    ensures n == n / 256 * 256 + n % 256 && 0 <= n % 256 < 256
  {
  }

  lemma DivBound(n: nat, p: nat)
    requires n < 256 * p
    ensures n / 256 < p
  {
  }

  /** A non-negative number below half the range comes back unchanged through the signed reading. */
  lemma SignedBigEndianOfSmall(n: nat, k: nat)
    requires k > 0 && n < Pow256(k) / 2
    ensures SignedBigEndian(BigEndian(n, k)) == n
  {
    UnsignedBigEndian(n, k);
  }

  function Pow2(k: nat): (r: nat)
    ensures r >= 1
  {
    if k == 0 then 1 else 2 * Pow2(k - 1)
  }

  /** c shifted left by j bits. */
  function Shl(c: nat, j: nat): nat
  {
    if j == 0 then c else 2 * Shl(c, j - 1)
  }

  /** Bitwise OR of the k low-order bits of a and b. */
  function BitOr(a: nat, b: nat, k: nat): (r: nat)
    ensures r < Pow2(k)
  {
    if k == 0 then 0
    else (if a % 2 == 1 || b % 2 == 1 then 1 else 0) + 2 * BitOr(a / 2, b / 2, k - 1)
  }

  /** Kotlin's `Byte or Byte`. */
  function Or(a: Byte, b: Byte): Byte
  {
    assert Pow2(8) == 256;
    BitOr(a, b, 8)
  }

  lemma {:induction false} BitOrZero(b: nat, k: nat)
    requires b < Pow2(k)
    ensures BitOr(0, b, k) == b
  {
    if k > 0 {
      BitOrZero(b / 2, k - 1);
    }
  }

  /** OR-ing in bits that all lie above the j low-order bits of a is addition. */
  lemma {:induction false} BitOrDisjoint(a: nat, c: nat, j: nat, k: nat)
    requires j <= k && a < Pow2(j)
    ensures BitOr(a, Shl(c, j), k) == a + Shl(BitOr(0, c, k - j), j)
  {
    if j > 0 {
      BitOrDisjoint(a / 2, c, j - 1, k - 1);
    }
  }

  /** Setting a CBOR major type (the top three bits) on an initial byte whose top three bits are clear. */
  lemma OrHeader(a: Byte, h: Byte)
    requires a < 32 && h % 32 == 0
    ensures Or(a, h) == a + h
  {
    var c := h / 32;
    assert Shl(c, 5) == 32 * c == h by {
      assert Shl(c, 1) == 2 * c;
      assert Shl(c, 2) == 4 * c;
      assert Shl(c, 3) == 8 * c;
      assert Shl(c, 4) == 16 * c;
    }
    assert c < Pow2(3) by { assert Pow2(3) == 8; }
    BitOrZero(c, 3);
    assert Pow2(5) == 32;
    BitOrDisjoint(a, c, 5, 8);
  }

  /** Bit i of x, counting from the least significant bit. */
  function BitAt(x: nat, i: nat): bool
  {
    if i == 0 then x % 2 == 1 else BitAt(x / 2, i - 1)
  }

  /** Bit i of an OR is the OR of the two bits. */
  lemma {:induction false} BitOrBit(a: nat, b: nat, k: nat, i: nat)
    requires i < k
    ensures BitAt(BitOr(a, b, k), i) == (BitAt(a, i) || BitAt(b, i))
  {
    if i > 0 {
      BitOrBit(a / 2, b / 2, k - 1, i - 1);
    }
  }

  /** Bit i of `a or b` on bytes. */
  lemma OrBit(a: Byte, b: Byte, i: nat)
    requires i < 8
    ensures BitAt(Or(a, b), i) == (BitAt(a, i) || BitAt(b, i))
  {
    BitOrBit(a, b, 8, i);
  }

  /** Two numbers below 2^k with the same k low bits are equal. */
  lemma {:induction false} BitsDetermine(a: nat, b: nat, k: nat)
    requires a < Pow2(k) && b < Pow2(k)
    requires forall i :: 0 <= i < k ==> BitAt(a, i) == BitAt(b, i)
    ensures a == b
  {
    if k > 0 {
      assert BitAt(a, 0) == BitAt(b, 0);
      forall i | 0 <= i < k - 1
        ensures BitAt(a / 2, i) == BitAt(b / 2, i)
      {
        assert BitAt(a, i + 1) == BitAt(b, i + 1);
      }
      BitsDetermine(a / 2, b / 2, k - 1);
    }
  }
}
