/**
 * `client/operation/CreateOperation.kt` and `client/operation/GetOperation.kt`:
 * the client side of one `create` or `get` call. An operation checks what
 * its authenticator session can do, forwards a request to it, and answers
 * the caller suspended in `start()`. Each handler is one sequential step;
 * the coroutines, the `Timer` and the session object on the other side are
 * not modelled, only what the operation does to them.
 */
module ClientOperations {
  import opened Wrappers
  import opened JvmTypes
  import opened WebAuthnData
  import opened AuthData
  import opened Attestation
  import opened Sessions
  import opened MakeCredentialSessions
  import opened GetAssertionSessions

  /** What an operation asks of its session: its attachment and transport, and two capabilities. */
  datatype SessionInfo = SessionInfo(
    attachment: AuthenticatorAttachment,
    transport: AuthenticatorTransport,
    canStoreResidentKey: bool,
    canPerformUserVerification: bool)

  /** The two calls an operation makes on its session. */
  datatype Request = MakeCredentialCall(makeCredential: MakeCredentialRequest) | GetAssertionCall(getAssertion: GetAssertionRequest)

  /** What a caller is resumed with: a credential for the client operations, the CTAP response bytes for the BLE ones. */
  datatype Answer = AttestationAnswer(attestation: AttestationCredential) | AssertionAnswer(assertion: AssertionCredential) | ResponseBytes(bytes: seq<Byte>)

  /** Everything an operation does outside itself, in the order it does it. */
  datatype Effect =
    | SessionStarted                  // session.start()
    | SessionCancelled(reason: ErrorReason)   // session.cancel(reason)
    | SessionCalled(request: Request) // session.makeCredential(...) or session.getAssertion(...)
    | Finished                        // listener?.onFinish(type, opId)
    | Resolved(answer: Answer)        // continuation?.resume(answer)
    | Rejected(reason: ErrorReason)   // continuation?.resumeWithException(reason)
    | Refused(reason: ErrorReason)    // the exception a refused `start()` resumes its own caller with
    | ResumeThrew                     // a second resume of the held continuation throws IllegalStateException

  /** `OperationType`: which registry an operation's end is reported to. */
  datatype OperationType = GetOperationType | CreateOperationType

  /** `PublicKeyCredential<AuthenticatorAttestationResponse>`. */
  datatype AttestationCredential = AttestationCredential(id: string, rawId: seq<Byte>, clientDataJSON: string, attestationObject: seq<Byte>)

  /** `PublicKeyCredential<AuthenticatorAssertionResponse>`. */
  datatype AssertionCredential = AssertionCredential(
    id: string,
    rawId: seq<Byte>,
    clientDataJSON: string,
    authenticatorData: seq<Byte>,
    signature: seq<Byte>,
    userHandle: Option<seq<Byte>>)

  /** `judgeUserVerificationExecution`: both operations decide user verification the same way. */
  function JudgeUserVerification(requirement: UserVerificationRequirement, canPerform: bool): (r: bool)
    ensures r <==> requirement == Required || (requirement == Preferred && canPerform)
  {
    match requirement
    case Required => true
    case Discouraged => false
    case Preferred => canPerform
  }

  /** `filter { it.transports.contains(transport) }`. */
  function TransportFilter(ds: seq<PublicKeyCredentialDescriptor>, transport: AuthenticatorTransport): (r: seq<PublicKeyCredentialDescriptor>)
    ensures |r| <= |ds|
    ensures forall d :: d in r <==> d in ds && transport in d.transports
    decreases |ds|
  {
    if ds == [] then []
    else
      var rest := TransportFilter(ds[1..], transport);
      assert forall d :: d in ds <==> d == ds[0] || d in ds[1..];
      if transport in ds[0].transports then [ds[0]] + rest else rest
  }

  /** The filter keeps the descriptors in their original order: it distributes over concatenation. */
  lemma {:induction false} TransportFilterAppend(a: seq<PublicKeyCredentialDescriptor>, b: seq<PublicKeyCredentialDescriptor>, transport: AuthenticatorTransport)
    ensures TransportFilter(a + b, transport) == TransportFilter(a, transport) + TransportFilter(b, transport)
    decreases |a|
  {
    if a == [] {
      assert a + b == b;
    } else {
      assert (a + b)[0] == a[0] && (a + b)[1..] == a[1..] + b;
      TransportFilterAppend(a[1..], b, transport);
    }
  }

  /** A list whose every descriptor carries the transport passes unchanged. */
  lemma {:induction false} TransportFilterKeepsMatching(ds: seq<PublicKeyCredentialDescriptor>, transport: AuthenticatorTransport)
    requires forall i :: 0 <= i < |ds| ==> transport in ds[i].transports
    ensures TransportFilter(ds, transport) == ds
    decreases |ds|
  {
    if ds != [] {
      TransportFilterKeepsMatching(ds[1..], transport);
    }
  }

  // ---------------------------------------------------------------------
  // CreateOperation, and the lifecycle both BLE operations share with it
  // ---------------------------------------------------------------------

  /**
   * The mutable part of the client `CreateOperation` and of both BLE
   * operations: `stopped`, whether a `continuation` is held, whether that
   * continuation (from `suspendCoroutine`) has already been resumed,
   * whether the `timer` is armed, and the effects so far.
   */
  datatype OperationState = OperationState(stopped: bool, pending: bool, resumed: bool, timerArmed: bool, effects: seq<Effect>)

  const OperationInitial := OperationState(false, false, false, false, [])

  /** `options.authenticatorSelection?.userVerification ?: Discouraged`. */
  function CreateRequirement(options: PublicKeyCredentialCreationOptions): UserVerificationRequirement
  {
    match options.authenticatorSelection
    case None => Discouraged
    case Some(sel) => sel.userVerification
  }

  /** The guards of `onAvailable`: the error `stop` is called with, if any. */
  function CreateRefusal(options: PublicKeyCredentialCreationOptions, session: SessionInfo): (r: Option<ErrorReason>)
    ensures r.Some? ==> r.value == Unsupported
    ensures r.Some? <==> (
      options.authenticatorSelection.Some? &&
      var sel := options.authenticatorSelection.value;
      || (sel.authenticatorAttachment.Some? && sel.authenticatorAttachment.value != session.attachment)
      || (sel.requireResidentKey && !session.canStoreResidentKey)
      || (sel.userVerification == Required && !session.canPerformUserVerification))
  {
    match options.authenticatorSelection
    case None => None
    case Some(sel) =>
      if sel.authenticatorAttachment.Some? && sel.authenticatorAttachment.value != session.attachment then Some(Unsupported)
      else if sel.requireResidentKey && !session.canStoreResidentKey then Some(Unsupported)
      else if sel.userVerification == Required && !session.canPerformUserVerification then Some(Unsupported)
      else None
  }

  /** The `makeCredential` call `onAvailable` makes once the guards pass. */
  function CreateRequest(options: PublicKeyCredentialCreationOptions, rpId: string, hash: seq<Byte>, session: SessionInfo): MakeCredentialRequest
  {
    var uv := JudgeUserVerification(CreateRequirement(options), session.canPerformUserVerification);
    MakeCredentialRequest(
      hash,
      PublicKeyCredentialRpEntity(Some(rpId), options.rp.name, options.rp.icon),
      options.user,
      options.authenticatorSelection.Some? && options.authenticatorSelection.value.requireResidentKey,
      !uv,
      uv,
      options.pubKeyCredParams,
      TransportFilter(options.excludeCredentials, session.transport))
  }

  /**
   * What the session is asked for: exactly one of user presence and user
   * verification; verification iff Required, or Preferred and the session
   * can perform it; only the excluded credentials reachable over the
   * session's transport; the relying party under the picked id.
   */
  lemma CreateRequestContents(options: PublicKeyCredentialCreationOptions, rpId: string, hash: seq<Byte>, session: SessionInfo)
    ensures var r := CreateRequest(options, rpId, hash, session);
      && r.requireUserPresence == !r.requireUserVerification
      && (r.requireUserVerification <==> (
        || (options.authenticatorSelection.Some? && options.authenticatorSelection.value.userVerification == Required)
        || (options.authenticatorSelection.Some? && options.authenticatorSelection.value.userVerification == Preferred && session.canPerformUserVerification)))
      && (options.authenticatorSelection.None? ==> !r.requireUserVerification && r.requireUserPresence && !r.requireResidentKey)
      && (forall d :: d in r.excludeCredentialDescriptorList <==> d in options.excludeCredentials && session.transport in d.transports)
      && r.rpEntity.id == Some(rpId) && r.rpEntity.name == options.rp.name
      && r.userEntity == options.user && r.credTypesAndPubKeyAlgs == options.pubKeyCredParams && r.hash == hash
  {
  }

  /** `stopInternal(reason)`: nothing before `start` or once stopped; otherwise stop the timer, cancel the session and report the end. */
  function OperationStopInternal(s: OperationState, reason: ErrorReason): OperationState
  {
    if !s.pending || s.stopped then s
    else s.(timerArmed := false, effects := s.effects + [SessionCancelled(reason), Finished])
  }

  /**
   * `dispatchError(reason)`: the held continuation, if any, is resumed with
   * the error and kept; resuming it a second time throws.
   */
  function OperationDispatch(s: OperationState, reason: ErrorReason): OperationState
  {
    if !s.pending then s
    else if s.resumed then s.(effects := s.effects + [ResumeThrew])
    else s.(resumed := true, effects := s.effects + [Rejected(reason)])
  }

  /** `stop(reason)`. */
  function OperationStop(s: OperationState, reason: ErrorReason): OperationState
  {
    OperationDispatch(OperationStopInternal(s, reason), reason)
  }

  /** `start()`: refused with BadOperation when stopped or already started; otherwise hold the caller, arm the timer and start the session. */
  function OperationStart(s: OperationState): OperationState
  {
    if s.stopped || s.pending then s.(effects := s.effects + [Refused(BadOperation), Finished])
    else s.(pending := true, resumed := false, timerArmed := true, effects := s.effects + [SessionStarted])
  }

  /** `cancel(reason)`: only a started operation reacts; the internal session is cancelled with Timeout or Cancelled, any other is stopped. */
  function OperationCancel(s: OperationState, reason: ErrorReason, transport: AuthenticatorTransport): OperationState
  {
    if s.pending && !s.stopped then
      if transport == Internal then s.(effects := s.effects + [SessionCancelled(if reason == Timeout then Timeout else Cancelled)])
      else OperationStop(s, reason)
    else s
  }

  /** The timer task: it clears the timer, then `onTimeout` cancels with Timeout. */
  function OperationTimeout(s: OperationState, transport: AuthenticatorTransport): OperationState
  {
    OperationCancel(s.(timerArmed := false), Timeout, transport)
  }

  /** `onAvailable`: refuse with `stop(Unsupported)`, or pass the request to the session. */
  function CreateAvailable(s: OperationState, options: PublicKeyCredentialCreationOptions, rpId: string, hash: seq<Byte>, session: SessionInfo): OperationState
  {
    if s.stopped then s
    else
      match CreateRefusal(options, session)
      case Some(reason) => OperationStop(s, reason)
      case None => s.(effects := s.effects + [SessionCalled(MakeCredentialCall(CreateRequest(options, rpId, hash, session)))])
  }

  /**
   * The positions the loop zeroes, counted in the encoded attestation
   * object. The offset 37 counts rpIdHash (32 bytes), flags (1) and
   * signCount (4) as if from the start of the authenticator data.
   */
  const AAGUID_POS: nat := 37
  const AAGUID_LEN: nat := 16

  /** The bytes with positions 37..52 set to zero and every other byte kept. */
  function ZeroedAaguid(b: seq<Byte>): (r: seq<Byte>)
    requires |b| >= AAGUID_POS + AAGUID_LEN
    ensures |r| == |b|
    ensures forall i :: 0 <= i < |b| ==> r[i] == if AAGUID_POS <= i < AAGUID_POS + AAGUID_LEN then 0 else b[i]
  {
    b[..AAGUID_POS] + seq(AAGUID_LEN, _ => 0) + b[AAGUID_POS + AAGUID_LEN..]
  }

  /**
   * The loop `for (idx in guidPos..guidPos+15) resultedAttestationObject[idx] = 0`.
   * An array shorter than 53 bytes is zeroed from 37 to its end and then
   * the next index throws.
   */
  method ZeroAaguid(a: array<Byte>) returns (thrown: bool)
    modifies a
    ensures thrown <==> a.Length < AAGUID_POS + AAGUID_LEN
    ensures !thrown ==> a[..] == ZeroedAaguid(old(a[..]))
    ensures thrown ==> forall i :: 0 <= i < a.Length ==> a[i] == if AAGUID_POS <= i then 0 else old(a[i])
  {
    for idx := AAGUID_POS to AAGUID_POS + AAGUID_LEN
      invariant forall i :: 0 <= i < a.Length ==> a[i] == if AAGUID_POS <= i < idx then 0 else old(a[i])
      invariant idx == AAGUID_POS || idx <= a.Length
    {
      if idx >= a.Length {
        return true;
      }
      a[idx] := 0;
    }
    return false;
  }

  /** How `onCredentialCreated` ends before it builds the credential. */
  datatype AttestationOutcome =
    | NoAttestedData                                   // dispatchError(Unknown)
    | NotEncoded                                       // toBytes() == null: dispatchError(Unknown)
    | AaguidOutOfRange                                 // the zeroing loop throws out of the callback
    | Encoded(credentialId: seq<Byte>, bytes: seq<Byte>)

  /**
   * The attestation object `onCredentialCreated` returns, given the answer
   * of the self-attestation test: for "none" conveyance and a self
   * attestation, the encoded "none" form with positions 37..52 zeroed;
   * otherwise the object as built.
   */
  function AttestationFor(options: PublicKeyCredentialCreationOptions, ao: AttestationObject, jackson: JacksonCbor, selfAttested: bool): (r: AttestationOutcome)
    ensures r.NoAttestedData? <==> ao.authData.attestedCredentialData.None?
    ensures r.AaguidOutOfRange? ==> selfAttested && options.attestation == NoAttestation
    ensures r.Encoded? ==> Some(r.credentialId) == (if ao.authData.attestedCredentialData.Some? then Some(ao.authData.attestedCredentialData.value.credentialId) else None)
  {
    match ao.authData.attestedCredentialData
    case None => NoAttestedData
    case Some(acd) =>
      if options.attestation == NoAttestation && selfAttested then
        match Attestation.ToBytes(ToNone(ao), jackson)
        case None => NotEncoded
        case Some(b) => if |b| < AAGUID_POS + AAGUID_LEN then AaguidOutOfRange else Encoded(acd.credentialId, ZeroedAaguid(b))
      else
        match Attestation.ToBytes(ao, jackson)
        case None => NotEncoded
        case Some(b) => Encoded(acd.credentialId, b)
  }

  /**
   * `onCredentialCreated` as written: the test is `isSelfAttestation()`,
   * which answers true for nothing, so the "none" branch is never taken:
   * the result is the object as built, whatever the conveyance, and the
   * zeroing loop never runs.
   */
  function CreatedAttestation(options: PublicKeyCredentialCreationOptions, ao: AttestationObject, jackson: JacksonCbor): (o: AttestationOutcome)
    ensures !o.AaguidOutOfRange?
    ensures o.NoAttestedData? <==> ao.authData.attestedCredentialData.None?
    ensures o.NotEncoded? <==> ao.authData.attestedCredentialData.Some? && Attestation.ToBytes(ao, jackson).None?
    ensures o.Encoded? ==>
      Some(o.bytes) == Attestation.ToBytes(ao, jackson) && o.credentialId == ao.authData.attestedCredentialData.value.credentialId
  {
    AttestationFor(options, ao, jackson, IsSelfAttestation(ao) == Ok(true))
  }

  /** `onCredentialCreated` with the self-attestation test as evidently intended. */
  function CreatedAttestationIntended(options: PublicKeyCredentialCreationOptions, ao: AttestationObject, jackson: JacksonCbor): AttestationOutcome
  {
    AttestationFor(options, ao, jackson, IsSelfAttestationIntended(ao))
  }

  /**
   * With the intended test, "none" conveyance of a packed self attestation
   * whose "none" form encodes to at least 53 bytes gives those bytes with
   * positions 37..52 zeroed; any other conveyance gives the object as built.
   */
  lemma IntendedNoneConveyance(options: PublicKeyCredentialCreationOptions, ao: AttestationObject, jackson: JacksonCbor)
    requires ao.authData.attestedCredentialData.Some?
    ensures (options.attestation == NoAttestation && IsSelfAttestationIntended(ao) && Attestation.ToBytes(ToNone(ao), jackson).Some?
             && |Attestation.ToBytes(ToNone(ao), jackson).value| >= AAGUID_POS + AAGUID_LEN) ==>
      CreatedAttestationIntended(options, ao, jackson) ==
        Encoded(ao.authData.attestedCredentialData.value.credentialId, ZeroedAaguid(Attestation.ToBytes(ToNone(ao), jackson).value))
    ensures options.attestation != NoAttestation && Attestation.ToBytes(ao, jackson).Some? ==>
      CreatedAttestationIntended(options, ao, jackson) == Encoded(ao.authData.attestedCredentialData.value.credentialId, Attestation.ToBytes(ao, jackson).value)
  {
  }

  /** The text "authData" in UTF-8. */
  const AUTH_DATA_KEY: seq<Byte> := [0x61, 0x75, 0x74, 0x68, 0x44, 0x61, 0x74, 0x61]

  /**
   * An encoded attestation map that opens with a one-byte map head, the
   * text key "authData" (head 0x68) and the byte string of the
   * authenticator data under a two-byte head 0x58 n, as RFC 8949 section
   * 3 lays out a 24..255-byte string.
   */
  predicate AuthDataLeads(enc: seq<Byte>, authData: seq<Byte>)
  {
    && 24 <= |authData| < 256
    && |enc| >= 12 + |authData|
    && enc[1..10] == [0x68] + AUTH_DATA_KEY
    && enc[10] == 0x58 && enc[11] == |authData|
    && enc[12..12 + |authData|] == authData
  }

  /**
   * Where the loop lands as written. With the authenticator data behind a
   * 12-byte prefix, positions 37..52 of the encoding are bytes 25..40 of
   * the authenticator data: the tail of rpIdHash, the flags byte, the
   * counter and the first four AAGUID bytes. The flags byte, which has the
   * AT bit set, is cleared, and AAGUID bytes 4..15 are kept.
   */
  lemma ZeroingMissesAaguid(ao: AttestationObject, jackson: JacksonCbor)
    requires ao.authData.attestedCredentialData.Some?
    requires |ao.authData.rpIdHash| == 32 && |ao.authData.attestedCredentialData.value.aaguid| == 16
    requires Attestation.ToBytes(ToNone(ao), jackson).Some?
    requires AuthData.ToBytes(ao.authData, jackson).Some?
    requires AuthDataLeads(Attestation.ToBytes(ToNone(ao), jackson).value, AuthData.ToBytes(ao.authData, jackson).value)
    ensures var enc := Attestation.ToBytes(ToNone(ao), jackson).value;
      && |enc| >= AAGUID_POS + AAGUID_LEN
      && enc[44] == Flags(ao.authData) != ZeroedAaguid(enc)[44] == 0
      && forall i :: 4 <= i < 16 ==> ZeroedAaguid(enc)[49 + i] == ao.authData.attestedCredentialData.value.aaguid[i]
  {
    var enc := Attestation.ToBytes(ToNone(ao), jackson).value;
    var ad := AuthData.ToBytes(ao.authData, jackson).value;
    var acd := ao.authData.attestedCredentialData.value;
    AuthDataParts(ao.authData, jackson);
    HeadThenAaguid(ao.authData.rpIdHash, Flags(ao.authData), CounterBytes(ao.authData.signCount), acd.aaguid,
      LengthBytes(|acd.credentialId|) + acd.credentialId + KeyBytes(acd.credentialPublicKey, jackson).value);
    FlagBits(ao.authData);
    NoBitOfZero(6);
    hide *;
    assert enc[44] == ad[32] by {
      assert enc[12..12 + |ad|][32] == ad[32];
    }
    forall i | 4 <= i < 16
      ensures ZeroedAaguid(enc)[49 + i] == acd.aaguid[i]
    {
      assert enc[12..12 + |ad|][37 + i] == ad[37..53][i];
    }
  }

  /** Where the flags byte and the AAGUID sit in authenticator data with a 32-byte rpIdHash. */
  lemma HeadThenAaguid(h: seq<Byte>, f: Byte, c: seq<Byte>, g: seq<Byte>, t: seq<Byte>)
    requires |h| == 32 && |c| == 4 && |g| == 16
    ensures var ad := h + [f] + c + g + t; |ad| >= 53 && ad[32] == f && ad[37..53] == g
  {
    var ad := h + [f] + c + g + t;
    assert ad[37..53] == g by {
      assert forall i :: 0 <= i < 16 ==> ad[37 + i] == g[i];
    }
  }

  /** Zero has no bit set. */
  lemma NoBitOfZero(i: nat)
    ensures !BitAt(0, i)
  {
  }

  /** The attestation object with every AAGUID byte of its attested data set to zero. */
  function WithZeroAaguid(ao: AttestationObject): AttestationObject
    requires ao.authData.attestedCredentialData.Some?
  {
    var acd := ao.authData.attestedCredentialData.value;
    ao.(authData := ao.authData.(attestedCredentialData := Some(acd.(aaguid := seq(|acd.aaguid|, _ => 0)))))
  }

  /**
   * The zeroing as evidently intended, done on the AAGUID field before
   * encoding: the authenticator data encodes exactly when the original
   * does, to bytes of the same length that are zero at the AAGUID's place
   * and agree with the original everywhere else; the "none" form is
   * Jackson's encoding of the map over those bytes. A self attestation by
   * the corrected test already has a zero AAGUID, so for it the zeroing
   * changes nothing.
   */
  lemma NoneFormZeroAaguid(ao: AttestationObject, jackson: JacksonCbor)
    requires ao.authData.attestedCredentialData.Some?
    ensures AuthData.ToBytes(WithZeroAaguid(ao).authData, jackson).Some? <==> AuthData.ToBytes(ao.authData, jackson).Some?
    ensures AuthData.ToBytes(ao.authData, jackson).Some? ==>
      var b := AuthData.ToBytes(ao.authData, jackson).value;
      var z := AuthData.ToBytes(WithZeroAaguid(ao).authData, jackson).value;
      var start := |ao.authData.rpIdHash| + 5;
      && |z| == |b|
      && (forall i :: 0 <= i < |b| ==> z[i] == if start <= i < start + |ao.authData.attestedCredentialData.value.aaguid| then 0 else b[i])
      && Attestation.ToBytes(ToNone(WithZeroAaguid(ao)), jackson) == jackson(AnyStrMap([("authData", AnyBytes(z)), ("fmt", AnyText("none")), ("attStmt", AnyStrMap([]))]))
    ensures IsSelfAttestationIntended(ao) ==> WithZeroAaguid(ao) == ao
  {
    var zao := WithZeroAaguid(ao);
    ZeroAaguidBytes(ao.authData, zao.authData, jackson);
    if AuthData.ToBytes(ao.authData, jackson).Some? {
      Attestation.ToBytesShape(ToNone(zao), jackson);
    }
    if IsSelfAttestationIntended(ao) {
      assert zao.authData.attestedCredentialData.value.aaguid == ao.authData.attestedCredentialData.value.aaguid;
    }
  }

  /** The authenticator data bytes before and after the AAGUID is zeroed. */
  lemma ZeroAaguidBytes(ad: AuthenticatorData, zad: AuthenticatorData, jackson: JacksonCbor)
    requires ad.attestedCredentialData.Some?
    requires var acd := ad.attestedCredentialData.value;
      zad == ad.(attestedCredentialData := Some(acd.(aaguid := seq(|acd.aaguid|, _ => 0))))
    ensures AuthData.ToBytes(zad, jackson).Some? <==> AuthData.ToBytes(ad, jackson).Some?
    ensures AuthData.ToBytes(ad, jackson).Some? ==>
      var b := AuthData.ToBytes(ad, jackson).value;
      var z := AuthData.ToBytes(zad, jackson).value;
      |z| == |b| && forall i :: 0 <= i < |b| ==> z[i] == if |ad.rpIdHash| + 5 <= i < |ad.rpIdHash| + 5 + |ad.attestedCredentialData.value.aaguid| then 0 else b[i]
  {
    var acd := ad.attestedCredentialData.value;
    var zacd := zad.attestedCredentialData.value;
    assert AttestedBytes(zacd, jackson).Some? <==> AttestedBytes(acd, jackson).Some?;
    if AuthData.ToBytes(ad, jackson).Some? {
      var head := ad.rpIdHash + [Flags(ad)] + CounterBytes(ad.signCount);
      var tail := LengthBytes(|acd.credentialId|) + acd.credentialId + KeyBytes(acd.credentialPublicKey, jackson).value;
      AuthDataParts(ad, jackson);
      AuthDataParts(zad, jackson);
      assert Flags(zad) == Flags(ad);
      hide *;
      SpliceZeros(head, acd.aaguid, tail);
    }
  }

  /** Encoded authenticator data with attested data: its head, the AAGUID, then the rest of the attested data. */
  lemma AuthDataParts(ad: AuthenticatorData, jackson: JacksonCbor)
    requires ad.attestedCredentialData.Some? && AuthData.ToBytes(ad, jackson).Some?
    ensures var acd := ad.attestedCredentialData.value;
      AuthData.ToBytes(ad, jackson).value ==
        ad.rpIdHash + [Flags(ad)] + CounterBytes(ad.signCount) + acd.aaguid
        + (LengthBytes(|acd.credentialId|) + acd.credentialId + KeyBytes(acd.credentialPublicKey, jackson).value)
  {
  }

  /** Zeroing the middle part of a three-part sequence. */
  lemma SpliceZeros(h: seq<Byte>, m: seq<Byte>, t: seq<Byte>)
    ensures var b := h + m + t; var z := h + seq(|m|, _ => 0) + t;
      |z| == |b| && forall i :: 0 <= i < |b| ==> z[i] == if |h| <= i < |h| + |m| then 0 else b[i]
  {
  }

  /**
   * `completed()` then `continuation?.resume(cred)` and `continuation = null`;
   * a continuation already resumed throws, and is not cleared.
   */
  function OperationCompleted(s: OperationState, answer: Answer): OperationState
  {
    if s.pending && s.resumed then s.(timerArmed := false, effects := s.effects + [Finished, ResumeThrew])
    else s.(timerArmed := false, pending := false, effects := s.effects + [Finished] + (if s.pending then [Resolved(answer)] else []))
  }

  /** `onCredentialCreated`, given how building the attestation object ends. */
  function CreateCredentialCreated(s: OperationState, outcome: AttestationOutcome, clientDataJSON: string, base64: Base64Url): OperationState
  {
    match outcome
    case NoAttestedData => OperationDispatch(s, Unknown)
    case NotEncoded => OperationDispatch(s, Unknown)
    case AaguidOutOfRange => s
    case Encoded(id, b) => OperationCompleted(s, AttestationAnswer(AttestationCredential(base64(id), id, clientDataJSON, b)))
  }

  /** `start` refuses a stopped or started operation and reports the end; a second `start` after a successful one is always refused. */
  lemma OperationStartRules(s: OperationState)
    ensures var t := OperationStart(s);
      (s.stopped || s.pending) ==> t.effects == s.effects + [Refused(BadOperation), Finished] && t.pending == s.pending && t.timerArmed == s.timerArmed
    ensures var t := OperationStart(s);
      (!s.stopped && !s.pending) ==> t.pending && t.timerArmed && t.effects == s.effects + [SessionStarted]
    ensures var t := OperationStart(s);
      OperationStart(t).effects == t.effects + [Refused(BadOperation), Finished]
  {
  }

  /**
   * `cancel`, before `start`, does nothing. Afterwards, for the internal
   * session, it cancels the session with Timeout when asked for Timeout and
   * with Cancelled otherwise, the caller still unanswered; for any other
   * transport it stops: the session is cancelled with the reason, the end
   * is reported, and the caller gets the reason.
   */
  lemma OperationCancelRules(s: OperationState, reason: ErrorReason, transport: AuthenticatorTransport)
    ensures !s.pending ==> OperationCancel(s, reason, transport) == s
    ensures s.pending && !s.stopped && transport == Internal ==>
      OperationCancel(s, reason, transport) == s.(effects := s.effects + [SessionCancelled(if reason == Timeout then Timeout else Cancelled)])
    ensures s.pending && !s.stopped && transport != Internal ==>
      OperationCancel(s, reason, transport) ==
        s.(resumed := true, timerArmed := false, effects := s.effects + [SessionCancelled(reason), Finished, if s.resumed then ResumeThrew else Rejected(reason)])
  {
  }

  /** `onAvailable` refuses with Unsupported exactly when a guard fails, and otherwise makes the request `CreateRequest` describes, nothing else. */
  lemma CreateAvailableRules(s: OperationState, options: PublicKeyCredentialCreationOptions, rpId: string, hash: seq<Byte>, session: SessionInfo)
    requires !s.stopped
    ensures CreateRefusal(options, session).Some? ==> CreateAvailable(s, options, rpId, hash, session) == OperationStop(s, Unsupported)
    ensures CreateRefusal(options, session).None? ==>
      CreateAvailable(s, options, rpId, hash, session) == s.(effects := s.effects + [SessionCalled(MakeCredentialCall(CreateRequest(options, rpId, hash, session)))])
    ensures s.pending ==> OperationStop(s, Unsupported).effects == s.effects + [SessionCancelled(Unsupported), Finished, if s.resumed then ResumeThrew else Rejected(Unsupported)]
    ensures !s.pending ==> OperationStop(s, Unsupported) == s
  {
  }

  /**
   * As written, a refusal in `onAvailable` rejects the caller with
   * Unsupported and cancels the session; the session reports the stop back
   * through `onOperationStopped`, whose `stop` finds the continuation still
   * held and resumes it a second time, which throws.
   */
  lemma RefusedCreateResumesTwice(s: OperationState, options: PublicKeyCredentialCreationOptions, rpId: string, hash: seq<Byte>, session: SessionInfo)
    requires s.pending && !s.stopped && !s.resumed
    requires CreateRefusal(options, session).Some?
    ensures var t := CreateAvailable(s, options, rpId, hash, session);
      && t.effects == s.effects + [SessionCancelled(Unsupported), Finished, Rejected(Unsupported)]
      && t.pending && t.resumed
      && OperationStop(t, Unsupported).effects == t.effects + [SessionCancelled(Unsupported), Finished, ResumeThrew]
  {
  }

  /** `dispatchError` as evidently intended: the continuation is released (`continuation = null`) once resumed. */
  function OperationDispatchIntended(s: OperationState, reason: ErrorReason): OperationState
  {
    if s.pending then s.(pending := false, effects := s.effects + [Rejected(reason)]) else s
  }

  /** `stop(reason)` with the intended `dispatchError`. */
  function OperationStopIntended(s: OperationState, reason: ErrorReason): OperationState
  {
    OperationDispatchIntended(OperationStopInternal(s, reason), reason)
  }

  /**
   * With the continuation released, a stop rejects a held caller exactly
   * once: a second stop, whatever its reason, and a later answer change
   * nothing but the reported end, and no resume ever throws.
   */
  lemma StopIntendedOnce(s: OperationState, r1: ErrorReason, r2: ErrorReason, answer: Answer)
    ensures var t := OperationStopIntended(s, r1);
      && !t.pending
      && (s.pending && !s.stopped ==> t.effects == s.effects + [SessionCancelled(r1), Finished, Rejected(r1)])
      && (s.pending && s.stopped ==> t.effects == s.effects + [Rejected(r1)])
      && (!s.pending ==> t == s)
      && OperationStopIntended(t, r2) == t
      && OperationCompleted(t, answer).effects == t.effects + [Finished]
  {
  }

  /**
   * A created credential is answered once: the end is reported, the held
   * caller gets the credential, no caller is held afterwards. Its raw id is
   * the attested credential id, its id that id in Base64URL, and its
   * attestation object the object as built, whatever the conveyance.
   * Without attested data or bytes the caller gets Unknown. The callback
   * never escapes, so a held caller always gets an answer; a caller already
   * rejected makes that answer throw instead.
   */
  lemma CreatedCredentialRules(s: OperationState, options: PublicKeyCredentialCreationOptions, ao: AttestationObject, jackson: JacksonCbor, clientDataJSON: string, base64: Base64Url)
    ensures var o := CreatedAttestation(options, ao, jackson);
      var t := CreateCredentialCreated(s, o, clientDataJSON, base64);
      (o.NoAttestedData? || o.NotEncoded?) ==> t == OperationDispatch(s, Unknown) && (s.pending ==> t.effects == s.effects + [if s.resumed then ResumeThrew else Rejected(Unknown)])
    ensures var o := CreatedAttestation(options, ao, jackson);
      var t := CreateCredentialCreated(s, o, clientDataJSON, base64);
      o.Encoded? ==>
        && ao.authData.attestedCredentialData.Some?
        && o.credentialId == ao.authData.attestedCredentialData.value.credentialId
        && t.pending == (s.pending && s.resumed) && !t.timerArmed
        && t.effects == s.effects + [Finished] +
          (if !s.pending then [] else if s.resumed then [ResumeThrew] else [Resolved(AttestationAnswer(AttestationCredential(base64(o.credentialId), o.credentialId, clientDataJSON, o.bytes)))])
        && Some(o.bytes) == Attestation.ToBytes(ao, jackson)
    ensures ao.authData.attestedCredentialData.None? ==> CreatedAttestation(options, ao, jackson) == NoAttestedData
    ensures CreateCredentialCreated(s, CreatedAttestation(options, ao, jackson), clientDataJSON, base64) != s || !s.pending
  {
  }

  /** `stopped` is never set: every step of `CreateOperation` keeps it as it was. */
  lemma CreateNeverStops(s: OperationState, reason: ErrorReason, transport: AuthenticatorTransport, options: PublicKeyCredentialCreationOptions,
                         rpId: string, hash: seq<Byte>, session: SessionInfo, o: AttestationOutcome, json: string, base64: Base64Url)
    ensures OperationStart(s).stopped == s.stopped
    ensures OperationCancel(s, reason, transport).stopped == s.stopped
    ensures OperationTimeout(s, transport).stopped == s.stopped
    ensures OperationStop(s, reason).stopped == s.stopped
    ensures CreateAvailable(s, options, rpId, hash, session).stopped == s.stopped
    ensures CreateCredentialCreated(s, o, json, base64).stopped == s.stopped
  {
    assert OperationStop(s, reason).stopped == s.stopped by {
      hide CreateAvailable, CreateCredentialCreated, OperationStart, OperationCancel, OperationTimeout;
    }
    assert OperationStart(s).stopped == s.stopped && OperationTimeout(s, transport).stopped == s.stopped by {
      hide CreateAvailable, CreateCredentialCreated, OperationStop;
    }
    hide OperationStart, OperationTimeout;
  }

  /** `CreateOperation`: its fixed inputs, the session it drives, and the mutable state of `OperationState`. */
  class CreateOperation {
    const options: PublicKeyCredentialCreationOptions
    const rpId: string
    const clientDataJSON: string
    const clientDataHash: seq<Byte>
    const lifetimeTimer: Long
    const opId: string
    const session: SessionInfo
    var stopped: bool
    var pending: bool
    var resumed: bool
    var timerArmed: bool
    var effects: seq<Effect>

    function State(): OperationState
      reads this
    {
      OperationState(stopped, pending, resumed, timerArmed, effects)
    }

    /** `opId` is the random UUID string the operation draws at construction. */
    constructor(options: PublicKeyCredentialCreationOptions, rpId: string, clientDataJSON: string, clientDataHash: seq<Byte>,
                lifetimeTimer: Long, opId: string, session: SessionInfo)
      ensures this.options == options && this.rpId == rpId && this.clientDataJSON == clientDataJSON
      ensures this.clientDataHash == clientDataHash && this.lifetimeTimer == lifetimeTimer
      ensures this.opId == opId && this.session == session
      ensures State() == OperationInitial
    {
      this.options := options;
      this.rpId := rpId;
      this.clientDataJSON := clientDataJSON;
      this.clientDataHash := clientDataHash;
      this.lifetimeTimer := lifetimeTimer;
      this.opId := opId;
      this.session := session;
      stopped := false;
      pending := false;
      resumed := false;
      timerArmed := false;
      effects := [];
    }

    method Start()
      modifies this
      ensures State() == OperationStart(old(State()))
    {
      if stopped {
        effects := effects + [Refused(BadOperation), Finished];
        return;
      }
      if pending {
        effects := effects + [Refused(BadOperation), Finished];
        return;
      }
      pending := true;
      resumed := false;
      timerArmed := true;
      effects := effects + [SessionStarted];
    }

    method Cancel(reason: ErrorReason)
      modifies this
      ensures State() == OperationCancel(old(State()), reason, session.transport)
    {
      if pending && !stopped {
        if session.transport == Internal {
          var r := if reason == Timeout then Timeout else Cancelled;
          effects := effects + [SessionCancelled(r)];
        } else {
          Stop(reason);
        }
      }
    }

    method Stop(reason: ErrorReason)
      modifies this
      ensures State() == OperationStop(old(State()), reason)
    {
      StopInternal(reason);
      DispatchError(reason);
    }

    method StopInternal(reason: ErrorReason)
      modifies this
      ensures State() == OperationStopInternal(old(State()), reason)
    {
      if !pending {
        return;
      }
      if stopped {
        return;
      }
      timerArmed := false;
      effects := effects + [SessionCancelled(reason), Finished];
    }

    method DispatchError(reason: ErrorReason)
      modifies this
      ensures State() == OperationDispatch(old(State()), reason)
    {
      if pending {
        if resumed {
          effects := effects + [ResumeThrew];
        } else {
          resumed := true;
          effects := effects + [Rejected(reason)];
        }
      }
    }

    method OnTimeout()
      modifies this
      ensures State() == OperationTimeout(old(State()), session.transport)
    {
      timerArmed := false;
      Cancel(Timeout);
    }

    method OnAvailable()
      modifies this
      ensures State() == CreateAvailable(old(State()), options, rpId, clientDataHash, session)
    {
      if stopped {
        return;
      }
      var refusal := CreateRefusal(options, session);
      if refusal.Some? {
        Stop(refusal.value);
        return;
      }
      effects := effects + [SessionCalled(MakeCredentialCall(CreateRequest(options, rpId, clientDataHash, session)))];
    }

    method OnOperationStopped(reason: ErrorReason)
      modifies this
      ensures State() == OperationStop(old(State()), reason)
    {
      Stop(reason);
    }

    method OnUnavailable()
      modifies this
      ensures State() == OperationStop(old(State()), NotAllowed)
    {
      Stop(NotAllowed);
    }

    /**
     * Builds the attestation object `onCredentialCreated` returns, given the
     * answer of the self-attestation test, zeroing positions 37..52 of the
     * encoding in a fresh array.
     */
    method EncodeAttestation(ao: AttestationObject, jackson: JacksonCbor, selfAttested: bool) returns (outcome: AttestationOutcome)
      ensures outcome == AttestationFor(options, ao, jackson, selfAttested)
    {
      if ao.authData.attestedCredentialData.None? {
        return NoAttestedData;
      }
      var credId := ao.authData.attestedCredentialData.value.credentialId;
      if options.attestation == NoAttestation && selfAttested {
        var bytes := Attestation.ToBytes(ToNone(ao), jackson);
        if bytes.None? {
          return NotEncoded;
        }
        var b := bytes.value;
        var a := new Byte[|b|](i requires 0 <= i < |b| => b[i]);
        assert a[..] == b;
        var thrown := ZeroAaguid(a);
        if thrown {
          return AaguidOutOfRange;
        }
        return Encoded(credId, a[..]);
      }
      var bytes := Attestation.ToBytes(ao, jackson);
      if bytes.None? {
        return NotEncoded;
      }
      return Encoded(credId, bytes.value);
    }

    /**
     * `onCredentialCreated`. The zeroing loop cannot throw out of the
     * callback here, because the self-attestation test never answers true.
     */
    method OnCredentialCreated(ao: AttestationObject, jackson: JacksonCbor, base64: Base64Url)
      modifies this
      ensures State() == CreateCredentialCreated(old(State()), CreatedAttestation(options, ao, jackson), clientDataJSON, base64)
    {
      var outcome := EncodeAttestation(ao, jackson, IsSelfAttestation(ao) == Ok(true));
      match outcome
      case NoAttestedData =>
        DispatchError(Unknown);
      case NotEncoded =>
        DispatchError(Unknown);
      case Encoded(credId, result) =>
        var cred := AttestationCredential(base64(credId), credId, clientDataJSON, result);
        timerArmed := false;
        effects := effects + [Finished];
        if pending {
          if resumed {
            effects := effects + [ResumeThrew];
            return;
          }
          effects := effects + [Resolved(AttestationAnswer(cred))];
        }
        pending := false;
    }
  }

  // ---------------------------------------------------------------------
  // GetOperation
  // ---------------------------------------------------------------------

  /** The mutable part of `GetOperation`, with `savedCredentialId`. */
  datatype GetState = GetState(stopped: bool, pending: bool, resumed: bool, timerArmed: bool, saved: Option<seq<Byte>>, effects: seq<Effect>)

  const GetInitial := GetState(false, false, false, false, None, [])

  /** The allow list `onAvailable` forwards: an empty list as it is, any other filtered by the session's transport. */
  function AllowListFor(options: PublicKeyCredentialRequestOptions, session: SessionInfo): seq<PublicKeyCredentialDescriptor>
  {
    if options.allowCredential == [] then options.allowCredential
    else TransportFilter(options.allowCredential, session.transport)
  }

  /** The guards of `onAvailable`: Unsupported for required but impossible verification, NotAllowed when no allowed credential is reachable. */
  function GetRefusal(options: PublicKeyCredentialRequestOptions, session: SessionInfo): (r: Option<ErrorReason>)
  {
    if options.userVerification == Required && !session.canPerformUserVerification then Some(Unsupported)
    else if options.allowCredential != [] && AllowListFor(options, session) == [] then Some(NotAllowed)
    else None
  }

  /** The `getAssertion` call `onAvailable` makes once the guards pass. */
  function GetRequest(options: PublicKeyCredentialRequestOptions, rpId: string, hash: seq<Byte>, session: SessionInfo): GetAssertionRequest
  {
    var uv := JudgeUserVerification(options.userVerification, session.canPerformUserVerification);
    GetAssertionRequest(rpId, hash, AllowListFor(options, session), !uv, uv)
  }

  /** `savedCredentialId` as `onAvailable` leaves it: the only forwarded descriptor's id. */
  function SavedFor(allow: seq<PublicKeyCredentialDescriptor>, saved: Option<seq<Byte>>): Option<seq<Byte>>
  {
    if |allow| == 1 then Some(allow[0].id) else saved
  }

  function GetStopInternal(s: GetState, reason: ErrorReason): GetState
  {
    if !s.pending || s.stopped then s
    else s.(timerArmed := false, effects := s.effects + [SessionCancelled(reason)])
  }

  /**
   * `dispatchError(reason)`: a coroutine resumes the held continuation, if
   * any, with the error and keeps it; resuming it a second time throws.
   */
  function GetDispatch(s: GetState, reason: ErrorReason): GetState
  {
    if !s.pending then s
    else if s.resumed then s.(effects := s.effects + [ResumeThrew])
    else s.(resumed := true, effects := s.effects + [Rejected(reason)])
  }

  /** `stop(reason)`: unlike `CreateOperation`, no end is reported to the listener. */
  function GetStop(s: GetState, reason: ErrorReason): GetState
  {
    GetDispatch(GetStopInternal(s, reason), reason)
  }

  /** `start()`: refused only when stopped; a held continuation is simply replaced. */
  function GetStart(s: GetState): GetState
  {
    if s.stopped then s.(effects := s.effects + [Refused(BadOperation)])
    else s.(pending := true, resumed := false, timerArmed := true, effects := s.effects + [SessionStarted])
  }

  /** The timer task: `onTimeout` stops with Timeout. */
  function GetTimeout(s: GetState): GetState
  {
    GetStop(s.(timerArmed := false), Timeout)
  }

  function GetAvailable(s: GetState, options: PublicKeyCredentialRequestOptions, rpId: string, hash: seq<Byte>, session: SessionInfo): GetState
  {
    if s.stopped then s
    else
      match GetRefusal(options, session)
      case Some(reason) => GetStop(s, reason)
      case None =>
        var req := GetRequest(options, rpId, hash, session);
        s.(saved := SavedFor(req.allowCredentialDescriptorList, s.saved), effects := s.effects + [SessionCalled(GetAssertionCall(req))])
  }

  /** How `onCredentialDiscovered` settles the credential id. */
  datatype IdChoice = IdChosen(id: seq<Byte>) | IdMissing | IdNullDereference

  /**
   * The choice as written: with no saved id it takes the saved id, null,
   * whose `!!` throws; with a saved id it takes the session's id, and a
   * missing one gives Unknown.
   */
  function ChooseCredentialIdAsWritten(saved: Option<seq<Byte>>, assertion: AssertionResult): (r: IdChoice)
    ensures saved.None? <==> r.IdNullDereference?
    ensures r.IdChosen? ==> Some(r.id) == assertion.credentialId
    ensures r.IdMissing? <==> saved.Some? && assertion.credentialId.None?
  {
    if saved.None? then IdNullDereference
    else if assertion.credentialId.None? then IdMissing
    else IdChosen(assertion.credentialId.value)
  }

  /** The choice as evidently intended: the saved id if there is one, else the session's, else Unknown. */
  function ChooseCredentialId(saved: Option<seq<Byte>>, assertion: AssertionResult): (r: IdChoice)
    ensures !r.IdNullDereference?
    ensures saved.Some? ==> r == IdChosen(saved.value)
    ensures saved.None? ==> (r.IdChosen? <==> assertion.credentialId.Some?)
  {
    if saved.Some? then IdChosen(saved.value)
    else if assertion.credentialId.None? then IdMissing
    else IdChosen(assertion.credentialId.value)
  }

  /**
   * Against a session that sends the credential id exactly when the allow
   * list does not have one entry (as `GetAssertionSession` does), the
   * choice as written never yields an id: one entry leaves the session's id
   * missing (Unknown), any other count dereferences null. The intended
   * choice always yields one: the only allowed id, or the session's.
   */
  lemma InvertedIdChoice(allow: seq<PublicKeyCredentialDescriptor>, assertion: AssertionResult)
    requires assertion.credentialId.Some? <==> |allow| != 1
    ensures |allow| == 1 ==> ChooseCredentialIdAsWritten(SavedFor(allow, None), assertion) == IdMissing
    ensures |allow| != 1 ==> ChooseCredentialIdAsWritten(SavedFor(allow, None), assertion) == IdNullDereference
    ensures ChooseCredentialId(SavedFor(allow, None), assertion) == IdChosen(if |allow| == 1 then allow[0].id else assertion.credentialId.value)
  {
  }

  /** With the internal session on the other side, every assertion it discovers is lost as written, and answered with an id as intended. */
  lemma InternalSessionAssertionsLost(st: CredentialStores.Store, req: GetAssertionRequest, setting: Setting, env: GetAssertionSessions.Environment)
    requires SelectionInRange(st, req, env)
    requires GetAssertionRun(st, req, setting, env).0.Succeeded?
    ensures var a := GetAssertionRun(st, req, setting, env).0.value.assertion;
      && !ChooseCredentialIdAsWritten(SavedFor(req.allowCredentialDescriptorList, None), a).IdChosen?
      && ChooseCredentialId(SavedFor(req.allowCredentialDescriptorList, None), a).IdChosen?
  {
    DiscoveredAssertion(st, req, setting, env);
    InvertedIdChoice(req.allowCredentialDescriptorList, GetAssertionRun(st, req, setting, env).0.value.assertion);
  }

  /**
   * `onCredentialDiscovered` once the id is settled: Unknown without one;
   * otherwise the timer stops and the held caller gets the credential, or,
   * when it was already resumed, the resume throws and the continuation is
   * kept.
   */
  function GetDiscovered(s: GetState, choice: IdChoice, assertion: AssertionResult, clientDataJSON: string, base64: Base64Url): GetState
  {
    match choice
    case IdMissing => GetStop(s, Unknown)
    case IdNullDereference => s
    case IdChosen(id) =>
      var cred := AssertionCredential(base64(id), id, clientDataJSON, assertion.authenticatorData, assertion.signature, assertion.userHandle);
      if s.pending && s.resumed then s.(timerArmed := false, effects := s.effects + [ResumeThrew])
      else s.(timerArmed := false, pending := false, effects := s.effects + (if s.pending then [Resolved(AssertionAnswer(cred))] else []))
  }

  /** A second `start` is not refused: it starts the session again. Only a stopped operation refuses, and it reports no end. */
  lemma GetStartRules(s: GetState)
    ensures !s.stopped ==> GetStart(GetStart(s)).effects == s.effects + [SessionStarted, SessionStarted]
    ensures s.stopped ==> GetStart(s).effects == s.effects + [Refused(BadOperation)]
  {
  }

  /**
   * `onAvailable`: Unsupported iff verification is required and impossible;
   * otherwise NotAllowed iff the allow list is non-empty and none of it
   * reaches the session's transport; otherwise a request with user presence
   * exactly when not verifying, the empty allow list unchanged or the
   * filtered one, and the saved id set iff one descriptor is forwarded.
   */
  lemma GetAvailableRules(s: GetState, options: PublicKeyCredentialRequestOptions, rpId: string, hash: seq<Byte>, session: SessionInfo)
    requires !s.stopped
    ensures GetRefusal(options, session) == Some(Unsupported) <==> options.userVerification == Required && !session.canPerformUserVerification
    ensures GetRefusal(options, session) == Some(NotAllowed) <==> (
      && !(options.userVerification == Required && !session.canPerformUserVerification)
      && options.allowCredential != []
      && forall d :: d in options.allowCredential ==> session.transport !in d.transports)
    ensures GetRefusal(options, session).Some? ==> GetAvailable(s, options, rpId, hash, session) == GetStop(s, GetRefusal(options, session).value)
    ensures GetRefusal(options, session).None? ==>
      var t := GetAvailable(s, options, rpId, hash, session);
      var r := GetRequest(options, rpId, hash, session);
      && t.effects == s.effects + [SessionCalled(GetAssertionCall(r))]
      && r.requireUserPresence == !r.requireUserVerification
      && (r.requireUserVerification <==> options.userVerification == Required || (options.userVerification == Preferred && session.canPerformUserVerification))
      && (options.allowCredential == [] ==> r.allowCredentialDescriptorList == [])
      && (options.allowCredential != [] ==> (r.allowCredentialDescriptorList != [] &&
          forall d :: d in r.allowCredentialDescriptorList <==> d in options.allowCredential && session.transport in d.transports))
      && r.rpId == rpId && r.hash == hash
      && (|r.allowCredentialDescriptorList| == 1 ==> t.saved == Some(r.allowCredentialDescriptorList[0].id))
      && (|r.allowCredentialDescriptorList| != 1 ==> t.saved == s.saved)
  {
    if options.allowCredential != [] && AllowListFor(options, session) != [] {
      var d := AllowListFor(options, session)[0];
      assert d in options.allowCredential && session.transport in d.transports;
    }
  }

  /** `onOperationStopped` only logs: a session that stops never answers the caller, who waits for the timer. */
  lemma GetIgnoresSessionStop(s: GetState)
    requires s.pending && !s.stopped && s.timerArmed
    ensures GetTimeout(s).effects == s.effects + [SessionCancelled(Timeout), if s.resumed then ResumeThrew else Rejected(Timeout)]
  {
  }

  /** `stopped` is never set in `GetOperation` either. */
  lemma GetNeverStops(s: GetState, reason: ErrorReason, options: PublicKeyCredentialRequestOptions, rpId: string, hash: seq<Byte>,
                      session: SessionInfo, choice: IdChoice, a: AssertionResult, json: string, base64: Base64Url)
    ensures GetStart(s).stopped == s.stopped
    ensures GetStop(s, reason).stopped == s.stopped
    ensures GetTimeout(s).stopped == s.stopped
    ensures GetAvailable(s, options, rpId, hash, session).stopped == s.stopped
    ensures GetDiscovered(s, choice, a, json, base64).stopped == s.stopped
  {
  }

  /** `GetOperation`. The repository's version has no `opId` or `listener`; the client gives it an id. */
  class GetOperation {
    const options: PublicKeyCredentialRequestOptions
    const rpId: string
    const clientDataJSON: string
    const clientDataHash: seq<Byte>
    const lifetimeTimer: Long
    const opId: string
    const session: SessionInfo
    var stopped: bool
    var pending: bool
    var resumed: bool
    var timerArmed: bool
    var saved: Option<seq<Byte>>
    var effects: seq<Effect>

    function State(): GetState
      reads this
    {
      GetState(stopped, pending, resumed, timerArmed, saved, effects)
    }

    constructor(options: PublicKeyCredentialRequestOptions, rpId: string, clientDataJSON: string, clientDataHash: seq<Byte>,
                lifetimeTimer: Long, opId: string, session: SessionInfo)
      ensures this.options == options && this.rpId == rpId && this.clientDataJSON == clientDataJSON
      ensures this.clientDataHash == clientDataHash && this.lifetimeTimer == lifetimeTimer
      ensures this.opId == opId && this.session == session
      ensures State() == GetInitial
    {
      this.options := options;
      this.rpId := rpId;
      this.clientDataJSON := clientDataJSON;
      this.clientDataHash := clientDataHash;
      this.lifetimeTimer := lifetimeTimer;
      this.opId := opId;
      this.session := session;
      stopped := false;
      pending := false;
      resumed := false;
      timerArmed := false;
      saved := None;
      effects := [];
    }

    method Start()
      modifies this
      ensures State() == GetStart(old(State()))
    {
      if stopped {
        effects := effects + [Refused(BadOperation)];
        return;
      }
      pending := true;
      resumed := false;
      timerArmed := true;
      effects := effects + [SessionStarted];
    }

    /** `cancel()` only logs. */
    method Cancel()
      ensures State() == old(State())
    {
    }

    method Stop(reason: ErrorReason)
      modifies this
      ensures State() == GetStop(old(State()), reason)
    {
      if pending && !stopped {
        timerArmed := false;
        effects := effects + [SessionCancelled(reason)];
      }
      if pending {
        if resumed {
          effects := effects + [ResumeThrew];
        } else {
          resumed := true;
          effects := effects + [Rejected(reason)];
        }
      }
    }

    method OnTimeout()
      modifies this
      ensures State() == GetTimeout(old(State()))
    {
      timerArmed := false;
      Stop(Timeout);
    }

    method OnAvailable()
      modifies this
      ensures State() == GetAvailable(old(State()), options, rpId, clientDataHash, session)
    {
      if stopped {
        return;
      }
      if options.userVerification == Required && !session.canPerformUserVerification {
        Stop(Unsupported);
        return;
      }
      var uv := JudgeUserVerification(options.userVerification, session.canPerformUserVerification);
      if options.allowCredential == [] {
        effects := effects + [SessionCalled(GetAssertionCall(GetAssertionRequest(rpId, clientDataHash, options.allowCredential, !uv, uv)))];
      } else {
        var allow := TransportFilter(options.allowCredential, session.transport);
        if allow == [] {
          Stop(NotAllowed);
          return;
        }
        if |allow| == 1 {
          saved := Some(allow[0].id);
        }
        effects := effects + [SessionCalled(GetAssertionCall(GetAssertionRequest(rpId, clientDataHash, allow, !uv, uv)))];
      }
    }

    method OnOperationStopped(reason: ErrorReason)
      ensures State() == old(State())
    {
    }

    method OnUnavailable()
      modifies this
      ensures State() == GetStop(old(State()), NotAllowed)
    {
      Stop(NotAllowed);
    }

    /**
     * `onCredentialDiscovered` as written: with no saved id the null saved id
     * is taken and `credId!!` throws out of the callback (`escaped`), with
     * nothing changed; with a saved id the session's id is taken instead,
     * and a missing one stops the operation with Unknown.
     */
    method OnCredentialDiscovered(assertion: AssertionResult, base64: Base64Url) returns (escaped: bool)
      modifies this
      ensures escaped <==> old(saved).None?
      ensures State() == GetDiscovered(old(State()), ChooseCredentialIdAsWritten(old(saved), assertion), assertion, clientDataJSON, base64)
    {
      var credId: seq<Byte>;
      if saved.None? {
        return true;
      } else {
        if assertion.credentialId.None? {
          Stop(Unknown);
          return false;
        }
        credId := assertion.credentialId.value;
      }
      var cred := AssertionCredential(base64(credId), credId, clientDataJSON, assertion.authenticatorData, assertion.signature, assertion.userHandle);
      timerArmed := false;
      if pending {
        if resumed {
          effects := effects + [ResumeThrew];
          return false;
        }
        effects := effects + [Resolved(AssertionAnswer(cred))];
      }
      pending := false;
      return false;
    }
  }
}
