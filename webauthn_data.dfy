/**
 * The declarations the core passes around (the `data` package, `ErrorReason.kt`,
 * the entity classes of `Types.kt`), and the JVM values handed to Jackson.
 */
module WebAuthnData {
  import opened Wrappers
  import opened JvmTypes

  /** An unsigned 32-bit Kotlin `UInt`. */
  type UInt = x: int | 0 <= x < 0x1_0000_0000

  /** `UInt` addition: wraps around modulo 2^32. */
  function AddUInt(a: UInt, b: UInt): UInt
  {
    (a + b) % 0x1_0000_0000
  }

  lemma AddUIntValue(a: UInt, b: UInt)
    ensures AddUInt(a, b) == (a + b) % 0x1_0000_0000
  {
  }

  datatype ErrorReason = BadOperation | InvalidState | Constraint | Cancelled | Timeout | NotAllowed | Unsupported | Unknown

  datatype AuthenticatorAttachment = Platform | CrossPlatform

  datatype AuthenticatorTransport = USB | BLE | NFC | Internal

  datatype UserVerificationRequirement = Required | Preferred | Discouraged

  datatype AttestationConveyancePreference = NoAttestation | Direct | Indirect

  datatype PublicKeyCredentialDescriptor = PublicKeyCredentialDescriptor(id: seq<Byte>, transports: seq<AuthenticatorTransport>)

  datatype PublicKeyCredentialParameters = PublicKeyCredentialParameters(alg: Int32)

  datatype PublicKeyCredentialRpEntity = PublicKeyCredentialRpEntity(id: Option<string>, name: string, icon: Option<string>)

  datatype PublicKeyCredentialUserEntity = PublicKeyCredentialUserEntity(id: seq<Byte>, name: string, displayName: string, icon: Option<string>)

  datatype AuthenticatorSelectionCriteria = AuthenticatorSelectionCriteria(
    authenticatorAttachment: Option<AuthenticatorAttachment>,
    requireResidentKey: bool,
    userVerification: UserVerificationRequirement)

  datatype PublicKeyCredentialCreationOptions = PublicKeyCredentialCreationOptions(
    rp: PublicKeyCredentialRpEntity,
    user: PublicKeyCredentialUserEntity,
    challenge: seq<Byte>,
    pubKeyCredParams: seq<PublicKeyCredentialParameters>,
    timeout: Option<Long>,
    excludeCredentials: seq<PublicKeyCredentialDescriptor>,
    authenticatorSelection: Option<AuthenticatorSelectionCriteria>,
    attestation: AttestationConveyancePreference)

  datatype PublicKeyCredentialRequestOptions = PublicKeyCredentialRequestOptions(
    challenge: seq<Byte>,
    rpId: Option<string>,
    allowCredential: seq<PublicKeyCredentialDescriptor>,
    userVerification: UserVerificationRequirement,
    timeout: Option<Long>)

  /** `CollectedClientData`: the type is `"webauthn.create"` or `"webauthn.get"`, the challenge Base64URL text. */
  datatype CollectedClientData = CollectedClientData(clientDataType: string, challenge: string, origin: string)

  /**
   * A JVM object as Jackson sees it when it serializes a map: `Int`,
   * `ByteArray`, `UByteArray`, `String`, `Boolean`, lists and maps.
   */
  datatype Any =
    | AnyInt(i: int)
    | AnyBytes(bytes: seq<Byte>)
    | AnyUBytes(ubytes: seq<Byte>)
    | AnyText(text: string)
    | AnyBool(b: bool)
    | AnyList(items: seq<Any>)
    | AnyStrMap(entries: seq<(string, Any)>)
    | AnyIntMap(pairs: seq<(int, Any)>)

  /** `ObjectMapper(CBORFactory()).writeValueAsBytes`: None where it throws. */
  type JacksonCbor = Any -> Option<seq<Byte>>

  /** `MessageDigest` SHA-256 of a string's UTF-8 bytes. */
  type Sha256 = string -> seq<Byte>

  /** `Base64` in its URL-safe alphabet. */
  type Base64Url = seq<Byte> -> string
}
