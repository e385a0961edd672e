/**
 * `MakeCredentialOptions.fromByteArray` and `GetAssertionOptions.fromByteArray`:
 * the CTAP request validators of the BLE authenticator. Both read the
 * request as a CBOR map with text keys and check its fields one by one.
 */
module CtapOptions {
  import opened Wrappers
  import opened JvmTypes
  import opened CBORBits
  import opened CBORReading
  import opened LinkedMaps
  import opened WebAuthnData
  import opened BleConstants

  /**
   * What a validator ends with: options (`Pair(options, null)`), an error
   * (`Pair(null, error)`), or an exception that escapes it (a failed cast,
   * or one the reader throws). Exactly one of options and error is set.
   */
  datatype Parsed<T> = Accepted(value: T) | Rejected(error: BLEErrorType) | Threw

  /** Carries a failure over to another result type. */
  function Fail<A, B>(p: Parsed<A>): (r: Parsed<B>)
    requires !p.Accepted?
    ensures r.Rejected? <==> p.Rejected?
    ensures r.Rejected? ==> r.error == p.error
  {
    if p.Rejected? then Rejected(p.error) else Threw
  }

  /** The reader gives text strings as their UTF-8 bytes; `String(bytes, UTF_8)` is left to this decoder. */
  type Utf8Decoder = seq<Byte> -> string

  const CLIENT_DATA_HASH := Ascii("clientDataHash")
  const RP := Ascii("rp")
  const RP_ID := Ascii("rpId")
  const ID := Ascii("id")
  const NAME := Ascii("name")
  const ICON := Ascii("icon")
  const USER := Ascii("user")
  const DISPLAY_NAME := Ascii("displayName")
  const PUB_KEY_CRED_PARAMS := Ascii("pubKeyCredParams")
  const TYPE := Ascii("type")
  const ALG := Ascii("alg")
  const OPTIONS := Ascii("options")
  const UV := Ascii("uv")

  /** `is Map<*, *>`: a map with text keys or a map with integer keys. */
  predicate IsMap(v: Value)
  {
    v.StrMap? || v.IntMap?
  }

  /** `(v as Map<String, Any>)[key]`: a map with integer keys answers no text key. */
  function Field(v: Value, key: seq<Byte>): (r: Option<Value>)
    requires IsMap(v)
    ensures r.Some? ==> v.StrMap? && HasKey(v.entries, key)
  {
    if v.StrMap? then Get(v.entries, key) else None
  }

  /** A field that is taken "only if it is a String". */
  function OptionalText(v: Value, key: seq<Byte>, decode: Utf8Decoder): (r: Option<string>)
    requires IsMap(v)
    ensures r.Some? <==> Field(v, key).Some? && Field(v, key).value.Text?
    ensures r.Some? ==> r.value == decode(Field(v, key).value.utf8)
  {
    match Field(v, key)
    case Some(Text(t)) => Some(decode(t))
    case _ => None
  }

  /** `CBORReader(value).readStringKeyMap()`, null giving InvalidPar. */
  function ParseParams(value: seq<Byte>): (r: Parsed<seq<(seq<Byte>, Value)>>)
    requires |value| <= INT_MAX
    ensures r.Accepted? <==> ReadStringKeyMapAt(State(value, 0)).0.Ok?
    ensures r.Accepted? ==> r.value == ReadStringKeyMapAt(State(value, 0)).0.value
    ensures r.Threw? <==> ReadStringKeyMapAt(State(value, 0)).0.Thrown?
    ensures r.Rejected? ==> r.error == InvalidPar
  {
    match ReadStringKeyMapAt(State(value, 0)).0
    case Ok(params) => Accepted(params)
    case Null => Rejected(InvalidPar)
    case Thrown => Threw
  }

  /** `clientDataHash` must be present and a `ByteArray`. */
  function ClientDataHashOf(params: seq<(seq<Byte>, Value)>): (r: Parsed<seq<Byte>>)
    ensures r.Accepted? <==> Get(params, CLIENT_DATA_HASH).Some? && Get(params, CLIENT_DATA_HASH).value.Bytes?
    ensures r.Accepted? ==> Get(params, CLIENT_DATA_HASH) == Some(Bytes(r.value))
    ensures !r.Accepted? ==> r == Rejected(InvalidPar)
  {
    var h: Option<Value> := Get(params, CLIENT_DATA_HASH);
    if h.Some? && h.value.Bytes? then Accepted(h.value.data) else Rejected(InvalidPar)
  }

  /** `rp` must be a map with a String `id` and a String `name`; `icon` is taken if it is a String. */
  function RpOf(params: seq<(seq<Byte>, Value)>, decode: Utf8Decoder): (r: Parsed<PublicKeyCredentialRpEntity>)
    ensures var rp := Get(params, RP);
      r.Accepted? <==> (rp.Some? && IsMap(rp.value) && Field(rp.value, ID).Some? && Field(rp.value, ID).value.Text?
        && Field(rp.value, NAME).Some? && Field(rp.value, NAME).value.Text?)
    ensures r.Accepted? ==> var m := Get(params, RP).value;
      r.value == PublicKeyCredentialRpEntity(Some(decode(Field(m, ID).value.utf8)), decode(Field(m, NAME).value.utf8), OptionalText(m, ICON, decode))
    ensures !r.Accepted? ==> r == Rejected(InvalidPar)
  {
    match Get(params, RP)
    case None => Rejected(InvalidPar)
    case Some(m) =>
      if !IsMap(m) then Rejected(InvalidPar)
      else
        match (Field(m, ID), Field(m, NAME))
        case (Some(Text(id)), Some(Text(name))) => Accepted(PublicKeyCredentialRpEntity(Some(decode(id)), decode(name), OptionalText(m, ICON, decode)))
        case _ => Rejected(InvalidPar)
  }

  /** `user` must be a map with a `ByteArray` `id` and a String `name`; `displayName` and `icon` are taken if they are Strings. */
  function UserOf(params: seq<(seq<Byte>, Value)>, decode: Utf8Decoder): (r: Parsed<PublicKeyCredentialUserEntity>)
    ensures var u := Get(params, USER);
      r.Accepted? <==> (u.Some? && IsMap(u.value) && Field(u.value, ID).Some? && Field(u.value, ID).value.Bytes?
        && Field(u.value, NAME).Some? && Field(u.value, NAME).value.Text?)
    ensures r.Accepted? ==> var m := Get(params, USER).value;
      r.value.id == Field(m, ID).value.data && r.value.name == decode(Field(m, NAME).value.utf8)
      && r.value.displayName == (if OptionalText(m, DISPLAY_NAME, decode).Some? then OptionalText(m, DISPLAY_NAME, decode).value else "")
      && r.value.icon == OptionalText(m, ICON, decode)
    ensures !r.Accepted? ==> r == Rejected(InvalidPar)
  {
    match Get(params, USER)
    case None => Rejected(InvalidPar)
    case Some(m) =>
      if !IsMap(m) then Rejected(InvalidPar)
      else
        match (Field(m, ID), Field(m, NAME))
        case (Some(Bytes(id)), Some(Text(name))) =>
          var displayName := OptionalText(m, DISPLAY_NAME, decode);
          Accepted(PublicKeyCredentialUserEntity(id, decode(name), if displayName.Some? then displayName.value else "", OptionalText(m, ICON, decode)))
        case _ => Rejected(InvalidPar)
  }

  /** One `pubKeyCredParams` element: a map that contains `type` and `alg`, whatever their values. */
  predicate CredParamValid(v: Value)
  {
    IsMap(v) && Field(v, TYPE).Some? && Field(v, ALG).Some?
  }

  /** The `forEach` over `pubKeyCredParams`, which returns at the first invalid element. */
  function AllCredParamsValid(items: seq<Value>): (r: bool)
    ensures r <==> forall i :: 0 <= i < |items| ==> CredParamValid(items[i])
  {
    if items == [] then true
    else
      var rest := AllCredParamsValid(items[1..]);
      assert rest <==> forall i :: 1 <= i < |items| ==> CredParamValid(items[i]) by {
        forall i | 1 <= i < |items| ensures items[1..][i - 1] == items[i] { }
      }
      CredParamValid(items[0]) && rest
  }

  /** `pubKeyCredParams` must be a list of valid elements; the list handed on is never filled. */
  function CredParamsOf(params: seq<(seq<Byte>, Value)>): (r: Parsed<seq<PublicKeyCredentialParameters>>)
    ensures var p := Get(params, PUB_KEY_CRED_PARAMS);
      r.Accepted? <==> p.Some? && p.value.Array? && forall i :: 0 <= i < |p.value.items| ==> CredParamValid(p.value.items[i])
    ensures r.Accepted? ==> r.value == []
    ensures !r.Accepted? ==> r == Rejected(InvalidPar)
  {
    var p: Option<Value> := Get(params, PUB_KEY_CRED_PARAMS);
    if p.Some? && p.value.Array? && AllCredParamsValid(p.value.items) then Accepted([]) else Rejected(InvalidPar)
  }

  /**
   * The `options` branch of `MakeCredentialOptions.fromByteArray`: its test
   * is inverted, so a map is refused with InvalidPar and anything else
   * fails the cast to a map; `uv` is never reached.
   */
  function MakeUserVerificationOf(params: seq<(seq<Byte>, Value)>): (r: Parsed<bool>)
    ensures r == Accepted(false) <==> !HasKey(params, OPTIONS)
    ensures r != Accepted(true)
    ensures r.Rejected? <==> HasKey(params, OPTIONS) && IsMap(Get(params, OPTIONS).value)
    ensures r.Rejected? ==> r.error == InvalidPar
  {
    match Get(params, OPTIONS)
    case None => Accepted(false)
    case Some(o) => if IsMap(o) then Rejected(InvalidPar) else Threw
  }

  /** `MakeCredentialOptions`. */
  datatype MakeCredentialOptions = MakeCredentialOptions(
    rp: PublicKeyCredentialRpEntity,
    user: PublicKeyCredentialUserEntity,
    clientDataHash: seq<Byte>,
    pubKeyCredParams: seq<PublicKeyCredentialParameters>,
    requireUserVerification: bool,
    requireResidentKey: bool)

  /** The checks of `MakeCredentialOptions.fromByteArray` once the map is read, in the source's order. */
  function MakeCredentialOptionsOf(params: seq<(seq<Byte>, Value)>, decode: Utf8Decoder): Parsed<MakeCredentialOptions>
  {
    var hash := ClientDataHashOf(params);
    if !hash.Accepted? then Fail(hash)
    else
      var rp := RpOf(params, decode);
      if !rp.Accepted? then Fail(rp)
      else
        var user := UserOf(params, decode);
        if !user.Accepted? then Fail(user)
        else
          var credParams := CredParamsOf(params);
          if !credParams.Accepted? then Fail(credParams)
          else
            var uv := MakeUserVerificationOf(params);
            if !uv.Accepted? then Fail(uv)
            else Accepted(MakeCredentialOptions(rp.value, user.value, hash.value, credParams.value, uv.value, true))
  }

  /** `MakeCredentialOptions.fromByteArray(value)`; a JVM array has at most `Int.MAX_VALUE` bytes. */
  function MakeCredentialOptionsFrom(value: seq<Byte>, decode: Utf8Decoder): (r: Parsed<MakeCredentialOptions>)
    requires |value| <= INT_MAX
    ensures r.Accepted? ==> !r.value.requireUserVerification && r.value.requireResidentKey && r.value.pubKeyCredParams == []
    ensures r.Rejected? ==> r.error == InvalidPar
  {
    var params := ParseParams(value);
    if !params.Accepted? then Fail(params) else MakeCredentialOptionsOf(params.value, decode)
  }

  /** Every field check passes. */
  predicate MakeFieldsValid(params: seq<(seq<Byte>, Value)>, decode: Utf8Decoder)
  {
    ClientDataHashOf(params).Accepted? && RpOf(params, decode).Accepted? && UserOf(params, decode).Accepted? && CredParamsOf(params).Accepted?
  }

  /**
   * The outcome of `MakeCredentialOptions.fromByteArray`: options iff the
   * map is read, every field is valid and there is no `options` key; an
   * escaping exception iff the reader throws or, all fields being valid,
   * `options` is not a map; InvalidPar in every other case.
   */
  lemma MakeCredentialOptionsOutcome(value: seq<Byte>, decode: Utf8Decoder)
    requires |value| <= INT_MAX
    ensures var r := MakeCredentialOptionsFrom(value, decode);
      var p := ParseParams(value);
      (r.Accepted? <==> p.Accepted? && MakeFieldsValid(p.value, decode) && !HasKey(p.value, OPTIONS))
      && (r.Threw? <==> p.Threw? || (p.Accepted? && MakeFieldsValid(p.value, decode) && HasKey(p.value, OPTIONS) && !IsMap(Get(p.value, OPTIONS).value)))
      && (r.Rejected? ==> r.error == InvalidPar)
  {
    hide ReadStringKeyMapAt, Ascii;
  }

  /**
   * Accepted options always say: no user verification, a resident key, no
   * algorithm; they carry the hash, the relying party and the user read
   * from the map. In particular a request asking for user verification
   * through `options` is never accepted.
   */
  lemma AcceptedMakeCredentialOptions(value: seq<Byte>, decode: Utf8Decoder)
    requires |value| <= INT_MAX
    requires MakeCredentialOptionsFrom(value, decode).Accepted?
    ensures var o := MakeCredentialOptionsFrom(value, decode).value;
      var p := ParseParams(value).value;
      !o.requireUserVerification && o.requireResidentKey && o.pubKeyCredParams == []
      && Get(p, CLIENT_DATA_HASH) == Some(Bytes(o.clientDataHash))
      && Some(o.rp) == (var rp := RpOf(p, decode); if rp.Accepted? then Some(rp.value) else None)
      && o.rp.id.Some? && o.user.id == Field(Get(p, USER).value, ID).value.data
      && !HasKey(p, OPTIONS)
  {
    hide ReadStringKeyMapAt, Ascii;
  }

  /** Maps with integer keys pass the `is Map` test but hold none of the text keys, so such an `rp` is refused. */
  lemma IntegerKeyedRpRefused(params: seq<(seq<Byte>, Value)>, pairs: seq<(Int32, Value)>, decode: Utf8Decoder)
    requires Get(params, RP) == Some(IntMap(pairs))
    ensures RpOf(params, decode) == Rejected(InvalidPar)
    ensures ClientDataHashOf(params).Accepted? ==> MakeCredentialOptionsOf(params, decode) == Rejected(InvalidPar)
  {
  }

  /** `GetAssertionOptions`. */
  datatype GetAssertionOptions = GetAssertionOptions(
    rpId: string,
    clientDataHash: seq<Byte>,
    allowCredential: seq<PublicKeyCredentialDescriptor>,
    requireUserVerification: bool,
    requireUserPresence: bool)

  /** `rpId` must be a String. */
  function RpIdOf(params: seq<(seq<Byte>, Value)>, decode: Utf8Decoder): (r: Parsed<string>)
    ensures r.Accepted? <==> Get(params, RP_ID).Some? && Get(params, RP_ID).value.Text?
    ensures r.Accepted? ==> r.value == decode(Get(params, RP_ID).value.utf8)
    ensures !r.Accepted? ==> r == Rejected(InvalidPar)
  {
    var t: Option<Value> := Get(params, RP_ID);
    if t.Some? && t.value.Text? then Accepted(decode(t.value.utf8)) else Rejected(InvalidPar)
  }

  /**
   * The `options` branch of `GetAssertionOptions.fromByteArray`: a
   * non-map is InvalidPar; in a map, a Boolean `uv` is ignored and any
   * other `uv` fails the cast to Boolean.
   */
  function GetUserVerificationOf(params: seq<(seq<Byte>, Value)>): (r: Parsed<bool>)
    ensures r != Accepted(true)
    ensures r.Rejected? <==> HasKey(params, OPTIONS) && !IsMap(Get(params, OPTIONS).value)
    ensures r.Rejected? ==> r.error == InvalidPar
    ensures r.Threw? <==> (HasKey(params, OPTIONS) && IsMap(Get(params, OPTIONS).value)
      && Field(Get(params, OPTIONS).value, UV).Some? && !Field(Get(params, OPTIONS).value, UV).value.Boolean?)
  {
    match Get(params, OPTIONS)
    case None => Accepted(false)
    case Some(o) =>
      if !IsMap(o) then Rejected(InvalidPar)
      else
        match Field(o, UV)
        case None => Accepted(false)
        case Some(u) => if u.Boolean? then Accepted(false) else Threw
  }

  /** The checks of `GetAssertionOptions.fromByteArray` once the map is read. */
  function GetAssertionOptionsOf(params: seq<(seq<Byte>, Value)>, decode: Utf8Decoder): Parsed<GetAssertionOptions>
  {
    var hash := ClientDataHashOf(params);
    if !hash.Accepted? then Fail(hash)
    else
      var rpId := RpIdOf(params, decode);
      if !rpId.Accepted? then Fail(rpId)
      else
        var uv := GetUserVerificationOf(params);
        if !uv.Accepted? then Fail(uv)
        else Accepted(GetAssertionOptions(rpId.value, hash.value, [], uv.value, true))
  }

  /** `GetAssertionOptions.fromByteArray(value)`. */
  function GetAssertionOptionsFrom(value: seq<Byte>, decode: Utf8Decoder): (r: Parsed<GetAssertionOptions>)
    requires |value| <= INT_MAX
    ensures r.Accepted? ==> r.value.requireUserPresence && !r.value.requireUserVerification && r.value.allowCredential == []
    ensures r.Rejected? ==> r.error == InvalidPar
  {
    var params := ParseParams(value);
    if !params.Accepted? then Fail(params) else GetAssertionOptionsOf(params.value, decode)
  }

  /**
   * The outcome of `GetAssertionOptions.fromByteArray`: options iff the map
   * is read, the hash is bytes, `rpId` is a String and `options` is absent
   * or a map whose `uv` is absent or Boolean; an escaping exception iff the
   * reader throws or a checked request carries a non-Boolean `uv`.
   */
  lemma GetAssertionOptionsOutcome(value: seq<Byte>, decode: Utf8Decoder)
    requires |value| <= INT_MAX
    ensures var r := GetAssertionOptionsFrom(value, decode);
      var p := ParseParams(value);
      var fields := p.Accepted? && ClientDataHashOf(p.value).Accepted? && RpIdOf(p.value, decode).Accepted?;
      (r.Accepted? <==> fields && GetUserVerificationOf(p.value).Accepted?)
      && (r.Threw? <==> p.Threw? || (fields && GetUserVerificationOf(p.value).Threw?))
      && (r.Rejected? ==> r.error == InvalidPar)
  {
    hide ReadStringKeyMapAt, Ascii;
  }

  /**
   * Accepted options always require user presence, never user
   * verification, and allow no credential; they carry the hash and the
   * relying party id read from the map.
   */
  lemma AcceptedGetAssertionOptions(value: seq<Byte>, decode: Utf8Decoder)
    requires |value| <= INT_MAX
    requires GetAssertionOptionsFrom(value, decode).Accepted?
    ensures var o := GetAssertionOptionsFrom(value, decode).value;
      var p := ParseParams(value).value;
      o.requireUserPresence && !o.requireUserVerification && o.allowCredential == []
      && Get(p, CLIENT_DATA_HASH) == Some(Bytes(o.clientDataHash))
      && Get(p, RP_ID) == Some(Text(Get(p, RP_ID).value.utf8)) && o.rpId == decode(Get(p, RP_ID).value.utf8)
  {
    hide ReadStringKeyMapAt, Ascii;
  }

  /** A request asking for user verification with `options: {uv: true}` is accepted without it. */
  lemma UserVerificationIgnored(params: seq<(seq<Byte>, Value)>, decode: Utf8Decoder)
    requires Get(params, OPTIONS) == Some(StrMap([(UV, Boolean(true))]))
    requires ClientDataHashOf(params).Accepted? && RpIdOf(params, decode).Accepted?
    ensures GetAssertionOptionsOf(params, decode).Accepted?
    ensures !GetAssertionOptionsOf(params, decode).value.requireUserVerification
  {
    hide Ascii;
    assert Get([(UV, Boolean(true))], UV) == Some(Boolean(true));
  }
}
