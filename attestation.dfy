/** `Attestation.kt`: the attestation object and its CBOR form. */
module Attestation {
  import opened Wrappers
  import opened JvmTypes
  import opened WebAuthnData
  import opened AuthData
  import LinkedMaps

  datatype AttestationObject = AttestationObject(fmt: string, authData: AuthenticatorData, attStmt: seq<(string, Any)>)

  /** `toNone()`: the same authenticator data, format "none" and an empty statement. */
  function ToNone(ao: AttestationObject): (r: AttestationObject)
    ensures r.authData == ao.authData && r.fmt == "none" && r.attStmt == []
  {
    AttestationObject("none", ao.authData, [])
  }

  /**
   * `isSelfAttestation()`: false for any format but "packed", or a
   * statement with "x5c" or "ecdaaKeyId", or present attested data; for
   * absent attested data the next guard dereferences it with `!!`, which
   * throws.
   */
  function IsSelfAttestation(ao: AttestationObject): (r: Outcome<bool>)
    ensures r != Ok(true)
    ensures r.Thrown? ==> ao.fmt == "packed" && ao.authData.attestedCredentialData.None?
  {
    if ao.fmt != "packed" then Ok(false)
    else if LinkedMaps.Get(ao.attStmt, "x5c").Some? then Ok(false)
    else if LinkedMaps.Get(ao.attStmt, "ecdaaKeyId").Some? then Ok(false)
    else if ao.authData.attestedCredentialData.Some? then Ok(false)
    else Thrown
  }

  /** `isSelfAttestation()` never answers true; it throws exactly when every guard passes. */
  lemma SelfAttestationNeverTrue(ao: AttestationObject)
    ensures IsSelfAttestation(ao) != Ok(true)
    ensures IsSelfAttestation(ao).Thrown? <==>
      ao.fmt == "packed" && !LinkedMaps.HasKey(ao.attStmt, "x5c") && !LinkedMaps.HasKey(ao.attStmt, "ecdaaKeyId")
      && ao.authData.attestedCredentialData.None?
    ensures IsSelfAttestation(ToNone(ao)) == Ok(false)
  {
  }

  /**
   * `isSelfAttestation()` as evidently intended: a "packed" statement with
   * neither "x5c" nor "ecdaaKeyId", and attested data whose AAGUID is all
   * zero bytes.
   */
  function IsSelfAttestationIntended(ao: AttestationObject): (r: bool)
    ensures r <==> (
      && ao.fmt == "packed" && !LinkedMaps.HasKey(ao.attStmt, "x5c") && !LinkedMaps.HasKey(ao.attStmt, "ecdaaKeyId")
      && ao.authData.attestedCredentialData.Some?
      && forall i :: 0 <= i < |ao.authData.attestedCredentialData.value.aaguid| ==> ao.authData.attestedCredentialData.value.aaguid[i] == 0)
  {
    if ao.fmt != "packed" then false
    else if LinkedMaps.Get(ao.attStmt, "x5c").Some? then false
    else if LinkedMaps.Get(ao.attStmt, "ecdaaKeyId").Some? then false
    else if ao.authData.attestedCredentialData.None? then false
    else AllZero(ao.authData.attestedCredentialData.value.aaguid)
  }

  /** `aaguid.any { it != 0x00 }` negated. */
  function AllZero(b: seq<Byte>): (r: bool)
    ensures r <==> forall i :: 0 <= i < |b| ==> b[i] == 0
    decreases |b|
  {
    if b == [] then true
    else if b[0] != 0 then false
    else
      var rest := AllZero(b[1..]);
      assert (forall i :: 1 <= i < |b| ==> b[i] == 0) <==> (forall i :: 0 <= i < |b| - 1 ==> b[1..][i] == 0) by {
        forall i | 1 <= i < |b| ensures b[i] == b[1..][i - 1] { }
      }
      rest
  }

  /** A packed self attestation with a zero AAGUID, which the source's check answers false for and the intended check true. */
  lemma SelfAttestationMissed(ao: AttestationObject)
    requires ao.fmt == "packed" && ao.attStmt == [("alg", AnyInt(-7)), ("sig", AnyBytes([1]))]
    requires ao.authData.attestedCredentialData.Some? && ao.authData.attestedCredentialData.value.aaguid == [0, 0]
    ensures IsSelfAttestation(ao) == Ok(false)
    ensures IsSelfAttestationIntended(ao)
  {
    assert !LinkedMaps.HasKey(ao.attStmt, "x5c") by {
      assert ao.attStmt[0].0 != "x5c" && ao.attStmt[1].0 != "x5c";
    }
    assert !LinkedMaps.HasKey(ao.attStmt, "ecdaaKeyId") by {
      assert ao.attStmt[0].0 != "ecdaaKeyId" && ao.attStmt[1].0 != "ecdaaKeyId";
    }
  }

  /** The `LinkedHashMap<String, Any>` `toBytes()` hands to Jackson. */
  function AttestationMap(ao: AttestationObject, authDataBytes: seq<Byte>): seq<(string, Any)>
  {
    var m0 := LinkedMaps.Put([], "authData", AnyBytes(authDataBytes));
    var m1 := LinkedMaps.Put(m0, "fmt", AnyText(ao.fmt));
    LinkedMaps.Put(m1, "attStmt", AnyStrMap(ao.attStmt))
  }

  /** The map holds authData, fmt and attStmt, in that order. */
  lemma AttestationMapEntries(ao: AttestationObject, authDataBytes: seq<Byte>)
    ensures AttestationMap(ao, authDataBytes) == [("authData", AnyBytes(authDataBytes)), ("fmt", AnyText(ao.fmt)), ("attStmt", AnyStrMap(ao.attStmt))]
  {
    var m0 := LinkedMaps.Put([], "authData", AnyBytes(authDataBytes));
    assert m0 == [("authData", AnyBytes(authDataBytes))];
    LinkedMaps.PutFresh(m0, "fmt", AnyText(ao.fmt));
    var m1 := m0 + [("fmt", AnyText(ao.fmt))];
    assert m1[0].0 != "attStmt" && m1[1].0 != "attStmt";
    LinkedMaps.PutFresh(m1, "attStmt", AnyStrMap(ao.attStmt));
  }

  /** `toBytes()`, over `AuthenticatorData.toBytes()` as written: None when that cannot be encoded or Jackson throws. */
  function ToBytes(ao: AttestationObject, jackson: JacksonCbor): (r: Option<seq<Byte>>)
    ensures AuthData.ToBytes(ao.authData, jackson).None? ==> r.None?
    ensures r.Some? ==> AuthData.ToBytes(ao.authData, jackson).Some?
  {
    match AuthData.ToBytes(ao.authData, jackson)
    case None => None
    case Some(b) => jackson(AnyStrMap(AttestationMap(ao, b)))
  }

  /** The encoding fails where the authenticator data's does; otherwise it is Jackson's encoding of the three-entry map. */
  lemma ToBytesShape(ao: AttestationObject, jackson: JacksonCbor)
    ensures AuthData.ToBytes(ao.authData, jackson).None? ==> ToBytes(ao, jackson).None?
    ensures AuthData.ToBytes(ao.authData, jackson).Some? ==>
      ToBytes(ao, jackson) == jackson(AnyStrMap([("authData", AnyBytes(AuthData.ToBytes(ao.authData, jackson).value)), ("fmt", AnyText(ao.fmt)), ("attStmt", AnyStrMap(ao.attStmt))]))
    ensures ToBytes(ToNone(ao), jackson).None? <== AuthData.ToBytes(ao.authData, jackson).None?
  {
    if AuthData.ToBytes(ao.authData, jackson).Some? {
      AttestationMapEntries(ao, AuthData.ToBytes(ao.authData, jackson).value);
    }
  }
}
