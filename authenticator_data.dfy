/**
 * `AuthenticatorData.kt`: the COSE key maps, the attested credential data,
 * the flags byte and the authenticator data layout of section 6.1 of W3C
 * Web Authentication Level 1. Jackson's CBOR encoder is a parameter.
 */
module AuthData {
  import opened Wrappers
  import opened JvmTypes
  import opened WebAuthnData
  import LinkedMaps

  // COSE key map labels (RFC 8152 section 13.1.1, RFC 8230 section 4).
  const KTY: int := 1
  const ALG: int := 3
  const CRV: int := -1
  const X_COORD: int := -2
  const Y_COORD: int := -3
  const RSA_N: int := -1
  const RSA_E: int := -2

  const P256: int := 1
  const KEY_TYPE_EC2: int := 2
  const KEY_TYPE_RSA: int := 3

  const RS256: int := -257
  const ES256: int := -7

  datatype CoseKey =
    | EC2(alg: Int32, crv: Int32, x: seq<Byte>, y: seq<Byte>)
    | RSA(rsaAlg: Int32, n: seq<Byte>, e: seq<Byte>)

  /** The `LinkedHashMap<Int, Any>` each key fills, in insertion order. */
  function KeyMap(k: CoseKey): seq<(int, Any)>
  {
    match k
    case EC2(alg, crv, x, y) =>
      var m0 := LinkedMaps.Put([], KTY, AnyInt(KEY_TYPE_EC2));
      var m1 := LinkedMaps.Put(m0, ALG, AnyInt(alg));
      var m2 := LinkedMaps.Put(m1, CRV, AnyInt(crv));
      var m3 := LinkedMaps.Put(m2, X_COORD, AnyUBytes(x));
      LinkedMaps.Put(m3, Y_COORD, AnyUBytes(y))
    case RSA(alg, n, e) =>
      var m0 := LinkedMaps.Put([], KTY, AnyInt(KEY_TYPE_RSA));
      var m1 := LinkedMaps.Put(m0, ALG, AnyInt(alg));
      var m2 := LinkedMaps.Put(m1, RSA_N, AnyUBytes(n));
      LinkedMaps.Put(m2, RSA_E, AnyUBytes(e))
  }

  /** The EC2 map is {1: 2, 3: alg, -1: crv, -2: x, -3: y} and the RSA map {1: 3, 3: alg, -1: n, -2: e}, in that order. */
  lemma KeyMapEntries(k: CoseKey)
    ensures k.EC2? ==> KeyMap(k) == [(1, AnyInt(2)), (3, AnyInt(k.alg)), (-1, AnyInt(k.crv)), (-2, AnyUBytes(k.x)), (-3, AnyUBytes(k.y))]
    ensures k.RSA? ==> KeyMap(k) == [(1, AnyInt(3)), (3, AnyInt(k.rsaAlg)), (-1, AnyUBytes(k.n)), (-2, AnyUBytes(k.e))]
  {
    if k.EC2? {
      var m0 := LinkedMaps.Put([], KTY, AnyInt(KEY_TYPE_EC2));
      assert m0 == [(1, AnyInt(2))];
      var m1 := LinkedMaps.Put(m0, ALG, AnyInt(k.alg));
      assert m1 == m0 + [(3, AnyInt(k.alg))] by { LinkedMaps.PutFresh(m0, ALG, AnyInt(k.alg)); }
      var m2 := LinkedMaps.Put(m1, CRV, AnyInt(k.crv));
      assert m2 == m1 + [(-1, AnyInt(k.crv))] by { LinkedMaps.PutFresh(m1, CRV, AnyInt(k.crv)); }
      var m3 := LinkedMaps.Put(m2, X_COORD, AnyUBytes(k.x));
      assert m3 == m2 + [(-2, AnyUBytes(k.x))] by { LinkedMaps.PutFresh(m2, X_COORD, AnyUBytes(k.x)); }
      LinkedMaps.PutFresh(m3, Y_COORD, AnyUBytes(k.y));
    } else {
      var m0 := LinkedMaps.Put([], KTY, AnyInt(KEY_TYPE_RSA));
      assert m0 == [(1, AnyInt(3))];
      var m1 := LinkedMaps.Put(m0, ALG, AnyInt(k.rsaAlg));
      assert m1 == m0 + [(3, AnyInt(k.rsaAlg))] by { LinkedMaps.PutFresh(m0, ALG, AnyInt(k.rsaAlg)); }
      var m2 := LinkedMaps.Put(m1, RSA_N, AnyUBytes(k.n));
      assert m2 == m1 + [(-1, AnyUBytes(k.n))] by { LinkedMaps.PutFresh(m1, RSA_N, AnyUBytes(k.n)); }
      LinkedMaps.PutFresh(m2, RSA_E, AnyUBytes(k.e));
    }
  }

  /** `COSEKey.toBytes()`: the map as Jackson CBOR, None where Jackson throws. */
  function KeyBytes(k: CoseKey, jackson: JacksonCbor): (r: Option<seq<Byte>>)
  {
    jackson(AnyIntMap(KeyMap(k)))
  }

  datatype AttestedCredentialData = AttestedCredentialData(aaguid: seq<Byte>, credentialId: seq<Byte>, credentialPublicKey: CoseKey)

  /** The two length bytes: `(n and 0xff00) shr 8` and `n and 0xff`. */
  function LengthBytes(n: nat): seq<Byte>
  {
    [(n / 0x100) % 0x100, n % 0x100]
  }

  /** The length bytes are the 16-bit big-endian length, readable back when it fits. */
  lemma LengthBytesBigEndian(n: nat)
    ensures LengthBytes(n) == BigEndian(n, 2)
    ensures n < 0x1_0000 ==> Unsigned(LengthBytes(n)) == n
  {
    Pow256Widths();
    assert BigEndian(n, 2) == BigEndian(n / 256, 1) + [n % 256];
    if n < 0x1_0000 {
      UnsignedBigEndian(n, 2);
    }
  }

  /** `AttestedCredentialData.toBytes()`: aaguid, credential id length, credential id, COSE key. */
  function AttestedBytes(acd: AttestedCredentialData, jackson: JacksonCbor): (r: Option<seq<Byte>>)
    ensures r.None? <==> KeyBytes(acd.credentialPublicKey, jackson).None?
    ensures r.Some? ==> r.value == acd.aaguid + BigEndian(|acd.credentialId|, 2) + acd.credentialId + KeyBytes(acd.credentialPublicKey, jackson).value
  {
    match KeyBytes(acd.credentialPublicKey, jackson)
    case None => None
    case Some(pk) =>
      LengthBytesBigEndian(|acd.credentialId|);
      Some(acd.aaguid + LengthBytes(|acd.credentialId|) + acd.credentialId + pk)
  }

  /** Each field of the attested credential data can be cut back out of the bytes. */
  lemma AttestedLayout(acd: AttestedCredentialData, jackson: JacksonCbor)
    requires AttestedBytes(acd, jackson).Some? && |acd.credentialId| < 0x1_0000
    ensures var r := AttestedBytes(acd, jackson).value;
      var a := |acd.aaguid|;
      var n := Unsigned(r[a..a + 2]);
      n == |acd.credentialId| && r[..a] == acd.aaguid && r[a + 2..a + 2 + n] == acd.credentialId
      && r[a + 2 + n..] == KeyBytes(acd.credentialPublicKey, jackson).value
  {
    var r := AttestedBytes(acd, jackson).value;
    var a := |acd.aaguid|;
    assert r[a..a + 2] == BigEndian(|acd.credentialId|, 2);
    LengthBytesBigEndian(|acd.credentialId|);
  }

  // Flag masks (`AuthenticatorDataFlags`).
  const UP_MASK: Byte := 0x01
  const UV_MASK: Byte := 0x04
  const AT_MASK: Byte := 0x40
  const ED_MASK: Byte := 0x84

  /**
   * `AuthenticatorDataFlags.toByte()`: OR in the mask of each flag that is
   * set, in order. UP lands in bit 0, AT in bit 6 and ED in bit 7, but bit
   * 2 (UV) is set when the user was verified OR when there are extensions,
   * because the extension mask is 0x84. No other bit is set.
   */
  function FlagsToByte(up: bool, uv: bool, at: bool, ed: bool): (r: Byte)
    ensures forall i :: 0 <= i < 8 ==> BitAt(r, i) == ((i == 0 && up) || (i == 2 && (uv || ed)) || (i == 6 && at) || (i == 7 && ed))
  {
    MaskedFlagsBits(up, uv, at, ed, ED_MASK);
    SetIf(SetIf(SetIf(SetIf(0, up, UP_MASK), uv, UV_MASK), at, AT_MASK), ed, ED_MASK)
  }

  /** `if (c) result = result or mask`. */
  function SetIf(r: Byte, c: bool, mask: Byte): (s: Byte)
    ensures forall i :: 0 <= i < 8 ==> BitAt(s, i) == (BitAt(r, i) || (c && BitAt(mask, i)))
  {
    if c then
      assert forall i :: 0 <= i < 8 ==> BitAt(Or(r, mask), i) == (BitAt(r, i) || BitAt(mask, i)) by {
        forall i | 0 <= i < 8 { OrBit(r, mask, i); }
      }
      Or(r, mask)
    else r
  }

  /** The bits of the masks: ED sets bit 7 and also bit 2, the UV bit. */
  lemma MaskBits(i: nat)
    requires i < 8
    ensures BitAt(UP_MASK, i) == (i == 0) && BitAt(UV_MASK, i) == (i == 2) && BitAt(AT_MASK, i) == (i == 6)
    ensures BitAt(ED_MASK, i) == (i == 2 || i == 7) && BitAt(0x80, i) == (i == 7) && !BitAt(0, i)
  {
    if i == 0 {
    } else if i == 1 {
    } else if i == 2 {
    } else if i == 3 {
    } else if i == 4 {
    } else if i == 5 {
    } else if i == 6 {
    } else {
      assert i == 7;
    }
  }

  /** With extensions present the source's flags byte no longer tells whether the user was verified. */
  lemma ExtensionSetsUserVerified(up: bool, at: bool)
    ensures FlagsToByte(up, false, at, true) == FlagsToByte(up, true, at, true)
    ensures FlagsToByteIntended(up, false, at, true) != FlagsToByteIntended(up, true, at, true)
  {
    hide FlagsToByte, SetIf, Or, BitOr;
    var a := FlagsToByte(up, false, at, true);
    var b := FlagsToByte(up, true, at, true);
    assert forall i :: 0 <= i < 8 ==> BitAt(a, i) == BitAt(b, i);
    assert Pow2(8) == 256;
    BitsDetermine(a, b, 8);
    assert BitAt(FlagsToByteIntended(up, true, at, true), 2);
  }

  /** The flags byte with the extension bit alone, as WebAuthn section 6.1 lays it out (ED = 0x80). */
  function FlagsToByteIntended(up: bool, uv: bool, at: bool, ed: bool): (r: Byte)
    ensures forall i :: 0 <= i < 8 ==> BitAt(r, i) == ((i == 0 && up) || (i == 2 && uv) || (i == 6 && at) || (i == 7 && ed))
  {
    MaskedFlagsBits(up, uv, at, ed, 0x80);
    SetIf(SetIf(SetIf(SetIf(0, up, UP_MASK), uv, UV_MASK), at, AT_MASK), ed, 0x80)
  }

  /** The four ORs with the extension mask as written (0x84) or as laid out (0x80). */
  lemma MaskedFlagsBits(up: bool, uv: bool, at: bool, ed: bool, edMask: Byte)
    requires edMask == ED_MASK || edMask == 0x80
    ensures var r := SetIf(SetIf(SetIf(SetIf(0, up, UP_MASK), uv, UV_MASK), at, AT_MASK), ed, edMask);
      forall i :: 0 <= i < 8 ==> BitAt(r, i) == ((i == 0 && up) || (i == 2 && (uv || (ed && edMask == ED_MASK))) || (i == 6 && at) || (i == 7 && ed))
  {
    hide *;
    var r1 := SetIf(0, up, UP_MASK);
    var r2 := SetIf(r1, uv, UV_MASK);
    var r3 := SetIf(r2, at, AT_MASK);
    var r := SetIf(r3, ed, edMask);
    forall i | 0 <= i < 8
      ensures BitAt(r, i) == ((i == 0 && up) || (i == 2 && (uv || (ed && edMask == ED_MASK))) || (i == 6 && at) || (i == 7 && ed))
    {
      MaskBits(i);
      assert BitAt(r1, i) == (BitAt(0, i) || (up && BitAt(UP_MASK, i)));
      assert BitAt(r2, i) == (BitAt(r1, i) || (uv && BitAt(UV_MASK, i)));
      assert BitAt(r3, i) == (BitAt(r2, i) || (at && BitAt(AT_MASK, i)));
      assert BitAt(r, i) == (BitAt(r3, i) || (ed && BitAt(edMask, i)));
    }
  }

  /** The corrected flags byte determines all four flags. */
  lemma IntendedFlagsInjective(up: bool, uv: bool, at: bool, ed: bool, up': bool, uv': bool, at': bool, ed': bool)
    requires FlagsToByteIntended(up, uv, at, ed) == FlagsToByteIntended(up', uv', at', ed')
    ensures up == up' && uv == uv' && at == at' && ed == ed'
  {
    hide FlagsToByteIntended, BitAt;
    var r := FlagsToByteIntended(up, uv, at, ed);
    assert BitAt(r, 0) == up == up';
    assert BitAt(r, 2) == uv == uv';
    assert BitAt(r, 6) == at == at';
    assert BitAt(r, 7) == ed == ed';
  }

  /**
   * The four counter bytes as written: bits 24-31, then bits 16-23 three
   * times. The first two bytes are the top half of the counter, and the
   * low half is lost.
   */
  function CounterBytes(sc: UInt): (r: seq<Byte>)
    ensures |r| == 4 && r[0] as int * 0x100 + r[1] as int == sc / 0x1_0000
    ensures r[3] == r[2] == r[1]
  {
    DivDiv(sc);
    var b2 := (sc / 0x1_0000) % 0x100;
    [sc / 0x100_0000, b2, b2, b2]
  }

  /** The counter as the 32-bit big-endian number WebAuthn section 6.1 lays out. */
  function CounterBytesIntended(sc: UInt): (r: seq<Byte>)
    ensures |r| == 4 && Unsigned(r) == sc
  {
    Pow256Widths();
    UnsignedBigEndian(sc, 4);
    BigEndian(sc, 4)
  }

  /**
   * The counter bytes as written cannot be read back: they agree with the
   * big-endian counter only in the top two bytes, and counters 0 and 1
   * give the same bytes.
   */
  lemma CounterBytesLoseLowBits(sc: UInt)
    ensures CounterBytes(sc)[..2] == CounterBytesIntended(sc)[..2]
    ensures CounterBytes(0) == CounterBytes(1) == [0, 0, 0, 0]
    ensures Unsigned(CounterBytes(1)) != 1
  {
    var b := CounterBytesIntended(sc);
    assert b == BigEndian(sc / 256, 3) + [sc % 256];
    assert BigEndian(sc / 256, 3) == BigEndian(sc / 256 / 256, 2) + [(sc / 256) % 256];
    assert BigEndian(sc / 256 / 256, 2) == BigEndian(sc / 256 / 256 / 256, 1) + [(sc / 256 / 256) % 256];
    DivDiv(sc);
    assert b[..2] == [(sc / 0x100_0000) % 256, (sc / 0x1_0000) % 256];
    var c := CounterBytes(1);
    assert c[..3] == [0, 0, 0] && c[3] == 0;
    assert Unsigned(c) == Unsigned(c[..3]) * 256;
  }

  lemma DivDiv(sc: UInt)
    ensures sc / 256 / 256 == sc / 0x1_0000
    ensures sc / 256 / 256 / 256 == sc / 0x100_0000
    ensures sc / 0x100_0000 < 256
  {
    var q := sc / 256;
    assert sc == 256 * q + sc % 256;
    var q2 := q / 256;
    assert q == 256 * q2 + q % 256;
    assert sc == 0x1_0000 * q2 + 256 * (q % 256) + sc % 256;
    var q3 := q2 / 256;
    assert q2 == 256 * q3 + q2 % 256;
    assert sc == 0x100_0000 * q3 + 0x1_0000 * (q2 % 256) + 256 * (q % 256) + sc % 256;
  }

  datatype AuthenticatorData = AuthenticatorData(
    rpIdHash: seq<Byte>,
    userPresent: bool,
    userVerified: bool,
    signCount: UInt,
    attestedCredentialData: Option<AttestedCredentialData>,
    extensions: seq<(string, Any)>)

  /** The header the layout starts with: rpIdHash, the flags byte and the counter bytes. */
  function Header(ad: AuthenticatorData, counter: UInt -> seq<Byte>, flags: Byte): seq<Byte>
  {
    ad.rpIdHash + [flags] + counter(ad.signCount)
  }

  /** The flags byte of `toBytes()`: AT iff attested data is present, ED iff there are extensions. */
  function Flags(ad: AuthenticatorData): Byte
  {
    FlagsToByte(ad.userPresent, ad.userVerified, ad.attestedCredentialData.Some?, ad.extensions != [])
  }

  /**
   * `AuthenticatorData.toBytes()`: rpIdHash, flags, counter, then the
   * attested credential data if present. Extension data is not appended.
   * None where the attested data's encoding is null.
   */
  function ToBytes(ad: AuthenticatorData, jackson: JacksonCbor): (r: Option<seq<Byte>>)
    ensures r.None? <==> ad.attestedCredentialData.Some? && AttestedBytes(ad.attestedCredentialData.value, jackson).None?
  {
    var head := ad.rpIdHash + [Flags(ad)] + CounterBytes(ad.signCount);
    match ad.attestedCredentialData
    case None => Some(head)
    case Some(acd) =>
      match AttestedBytes(acd, jackson)
      case None => None
      case Some(b) => Some(head + b)
  }

  /** The layout of the bytes `toBytes()` produces, and their length. */
  lemma ToBytesLayout(ad: AuthenticatorData, jackson: JacksonCbor)
    requires ToBytes(ad, jackson).Some?
    ensures var r := ToBytes(ad, jackson).value;
      var h := |ad.rpIdHash|;
      var tail := if ad.attestedCredentialData.Some? then AttestedBytes(ad.attestedCredentialData.value, jackson).value else [];
      |r| == h + 5 + |tail| && r[..h] == ad.rpIdHash && r[h] == Flags(ad)
      && r[h + 1..h + 5] == CounterBytes(ad.signCount) && r[h + 5..] == tail
  {
  }

  /** The AT bit is set iff attested data is present, the ED bit iff there are extensions, the UP bit iff the user was present. */
  lemma FlagBits(ad: AuthenticatorData)
    ensures BitAt(Flags(ad), 0) == ad.userPresent
    ensures BitAt(Flags(ad), 6) == ad.attestedCredentialData.Some?
    ensures BitAt(Flags(ad), 7) == (ad.extensions != [])
    ensures BitAt(Flags(ad), 2) == (ad.userVerified || ad.extensions != [])
  {
  }

  /** `toBytes()` with the big-endian counter and the 0x80 extension bit of WebAuthn section 6.1. */
  function ToBytesIntended(ad: AuthenticatorData, jackson: JacksonCbor): (r: Option<seq<Byte>>)
    ensures r.None? <==> ad.attestedCredentialData.Some? && AttestedBytes(ad.attestedCredentialData.value, jackson).None?
    ensures r.Some? ==> var h := |ad.rpIdHash|;
      |r.value| >= h + 5 && r.value[..h] == ad.rpIdHash
      && Unsigned(r.value[h + 1..h + 5]) == ad.signCount
      && BitAt(r.value[h], 2) == ad.userVerified && BitAt(r.value[h], 7) == (ad.extensions != [])
  {
    var flags := FlagsToByteIntended(ad.userPresent, ad.userVerified, ad.attestedCredentialData.Some?, ad.extensions != []);
    var head := ad.rpIdHash + [flags] + CounterBytesIntended(ad.signCount);
    var h := |ad.rpIdHash|;
    assert head[h + 1..h + 5] == CounterBytesIntended(ad.signCount);
    match ad.attestedCredentialData
    case None => Some(head)
    case Some(acd) =>
      match AttestedBytes(acd, jackson)
      case None => None
      case Some(b) =>
        assert (head + b)[..h + 5] == head;
        Some(head + b)
  }
}
