/**
 * `ctap/ble/operation/CreateOperation.kt`, `ctap/ble/operation/GetOperation.kt`
 * and `ctap/ble/BleFidoOperationManager.kt`: the operations that serve a
 * CTAP request arriving over BLE. They share the lifecycle of the client's
 * `CreateOperation` (`OperationState`), forward the parsed options to the
 * authenticator session, and answer with the CTAP response bytes of the
 * response builders. As written the builders never produce bytes (their
 * `AssertionError` escapes the callbacks); the answers with the corrected
 * builders are stated beside them.
 */
module BleOperations {
  import opened Wrappers
  import opened JvmTypes
  import opened WebAuthnData
  import opened AuthData
  import opened Attestation
  import opened Sessions
  import opened MakeCredentialSessions
  import opened GetAssertionSessions
  import opened ClientOperations
  import opened CBORBits
  import CtapOptions
  import CtapResponses
  import CBORWriting
  import CBORReading
  import CBORContainers
  import LinkedMaps

  /** The request `onAvailable` of the BLE `CreateOperation` makes: the options as parsed, presence iff not verifying, no excluded credentials. */
  function BleCreateRequest(options: CtapOptions.MakeCredentialOptions): MakeCredentialRequest
  {
    MakeCredentialRequest(
      options.clientDataHash, options.rp, options.user, options.requireResidentKey,
      !options.requireUserVerification, options.requireUserVerification, options.pubKeyCredParams, [])
  }

  /** `onAvailable`: Unsupported for a resident key the session cannot store, then for verification it cannot perform. */
  function BleCreateAvailable(s: OperationState, options: CtapOptions.MakeCredentialOptions, session: SessionInfo): OperationState
  {
    if s.stopped then s
    else if options.requireResidentKey && !session.canStoreResidentKey then OperationStop(s, Unsupported)
    else if options.requireUserVerification && !session.canPerformUserVerification then OperationStop(s, Unsupported)
    else s.(effects := s.effects + [SessionCalled(MakeCredentialCall(BleCreateRequest(options)))])
  }

  /**
   * `onAvailable` of the BLE `CreateOperation` refuses with Unsupported
   * exactly when a resident key cannot be stored or verification cannot be
   * performed though required; otherwise the session gets the parsed
   * options with presence exactly when not verifying and an empty exclude
   * list.
   */
  lemma BleCreateAvailableRules(s: OperationState, options: CtapOptions.MakeCredentialOptions, session: SessionInfo)
    requires !s.stopped
    ensures var refused := (options.requireResidentKey && !session.canStoreResidentKey)
                           || (options.requireUserVerification && !session.canPerformUserVerification);
      && (refused ==> BleCreateAvailable(s, options, session) == OperationStop(s, Unsupported))
      && (!refused ==> BleCreateAvailable(s, options, session) == s.(effects := s.effects + [SessionCalled(MakeCredentialCall(BleCreateRequest(options)))]))
    ensures var r := BleCreateRequest(options);
      && r.requireUserPresence == !r.requireUserVerification
      && r.requireUserVerification == options.requireUserVerification
      && r.requireResidentKey == options.requireResidentKey
      && r.excludeCredentialDescriptorList == []
      && r.hash == options.clientDataHash && r.rpEntity == options.rp && r.userEntity == options.user
      && r.credTypesAndPubKeyAlgs == options.pubKeyCredParams
  {
  }

  /** How the `(result, error)` pair of a builder is acted on: `stop(error)`, or `completed()` and resume with the bytes. */
  function BuiltAnswer(s: OperationState, b: CtapResponses.Built): OperationState
  {
    match b
    case BuildFailed(reason) => OperationStop(s, reason)
    case Escaped => s
    case Built(bytes) => OperationCompleted(s, ResponseBytes(bytes))
  }

  /**
   * A builder error stops the operation with that error; built bytes report
   * the end and resume the held caller with those bytes and release it, so a
   * second answer only reports the end again; a caller that was already
   * resumed with an error makes the resume throw, and is kept, so a second
   * answer throws again. An error escaping the builder leaves everything as
   * it was.
   */
  lemma BuiltAnswerRules(s: OperationState, b: CtapResponses.Built)
    ensures b.BuildFailed? && s.pending && !s.stopped ==>
      BuiltAnswer(s, b).effects == s.effects + [SessionCancelled(b.reason), Finished, if s.resumed then ResumeThrew else Rejected(b.reason)]
    ensures b.Built? ==> var t := BuiltAnswer(s, b);
      && t.pending == (s.pending && s.resumed) && !t.timerArmed
      && t.effects == s.effects + [Finished] + (if !s.pending then [] else if s.resumed then [ResumeThrew] else [Resolved(ResponseBytes(b.bytes))])
      && BuiltAnswer(t, b).effects == t.effects + [Finished] + (if t.pending then [ResumeThrew] else [])
    ensures b.Escaped? ==> BuiltAnswer(s, b) == s
  {
  }

  /** `onCredentialCreated`, with `MakeCredentialResponseBuilder` as written. */
  function BleCreateCreated(s: OperationState, ao: AttestationObject, statement: seq<(seq<Byte>, Value)>, jackson: JacksonCbor, utf8: CtapResponses.Utf8Encoder): (r: OperationState)
    ensures r == s || r == OperationStop(s, Unknown)
  {
    BuiltAnswer(s, CtapResponses.MakeCredentialResponse(ao, statement, jackson, utf8))
  }

  /** `onCredentialCreated`, with the corrected `MakeCredentialResponseBuilder`. */
  function BleCreateCreatedFixed(s: OperationState, ao: AttestationObject, statement: seq<(seq<Byte>, Value)>, jackson: JacksonCbor, utf8: CtapResponses.Utf8Encoder): OperationState
  {
    BuiltAnswer(s, CtapResponses.MakeCredentialResponseFixed(ao, statement, jackson, utf8))
  }

  /**
   * A started BLE create operation whose created credential has
   * authenticator data bytes and a readable statement answers its caller,
   * with the corrected builder, with a three-entry map that reads back as
   * attStmt, fmt and authData. As written the caller is never answered
   * with bytes: the callback either stops with Unknown or changes nothing.
   */
  lemma BleCreateAnswersWithResponse(s: OperationState, ao: AttestationObject, statement: seq<(seq<Byte>, Value)>, jackson: JacksonCbor, utf8: CtapResponses.Utf8Encoder)
    requires s.pending && !s.stopped
    requires AuthData.ToBytes(ao.authData, jackson).Some? && CBORContainers.EntriesReadable(statement)
    requires |CBORWriting.StrMapBytes(CtapResponses.MakeCredentialEntries(statement, utf8(ao.fmt), Bytes(AuthData.ToBytes(ao.authData, jackson).value))).bytes| <= INT_MAX
    ensures var e := CBORWriting.StrMapBytes(CtapResponses.MakeCredentialEntries(statement, utf8(ao.fmt), Bytes(AuthData.ToBytes(ao.authData, jackson).value)));
      && BleCreateCreatedFixed(s, ao, statement, jackson, utf8).effects == s.effects + [Finished, if s.resumed then ResumeThrew else Resolved(ResponseBytes(e.bytes))]
      && e.bytes[0] == 0xa3
      && CBORReading.ReadStringKeyMapAt(CBORReading.State(e.bytes, 0)).0 == Ok(CtapResponses.MakeCredentialEntries(statement, utf8(ao.fmt), Bytes(AuthData.ToBytes(ao.authData, jackson).value)))
    ensures var t := BleCreateCreated(s, ao, statement, jackson, utf8);
      t == s || t == OperationStop(s, Unknown)
  {
    hide CBORWriting.StrMapBytes, CBORReading.ReadStringKeyMapAt, CBORContainers.EntriesReadable, CtapResponses.MakeCredentialEntries,
         CtapResponses.MakeCredentialResponseFixed, CtapResponses.MakeCredentialResponse;
    CtapResponses.MakeCredentialResponseFixedReadsBack(ao, statement, jackson, utf8);
    CtapResponses.MakeCredentialResponseNeverBuilt(ao, statement, jackson, utf8);
  }

  /** The request `onAvailable` of the BLE `GetOperation` makes: every option field unchanged. */
  function BleGetRequest(options: CtapOptions.GetAssertionOptions): GetAssertionRequest
  {
    GetAssertionRequest(options.rpId, options.clientDataHash, options.allowCredential, options.requireUserPresence, options.requireUserVerification)
  }

  function BleGetAvailable(s: OperationState, options: CtapOptions.GetAssertionOptions, session: SessionInfo): OperationState
  {
    if s.stopped then s
    else if options.requireUserVerification && !session.canPerformUserVerification then OperationStop(s, Unsupported)
    else s.(effects := s.effects + [SessionCalled(GetAssertionCall(BleGetRequest(options)))])
  }

  /** `onAvailable` of the BLE `GetOperation`: Unsupported iff verification is required and impossible, else the options forwarded as they are. */
  lemma BleGetAvailableRules(s: OperationState, options: CtapOptions.GetAssertionOptions, session: SessionInfo)
    requires !s.stopped
    ensures options.requireUserVerification && !session.canPerformUserVerification ==>
      BleGetAvailable(s, options, session) == OperationStop(s, Unsupported)
    ensures !(options.requireUserVerification && !session.canPerformUserVerification) ==>
      BleGetAvailable(s, options, session) == s.(effects := s.effects + [SessionCalled(GetAssertionCall(BleGetRequest(options)))])
    ensures var r := BleGetRequest(options);
      && r.rpId == options.rpId && r.hash == options.clientDataHash
      && r.allowCredentialDescriptorList == options.allowCredential
      && r.requireUserPresence == options.requireUserPresence
      && r.requireUserVerification == options.requireUserVerification
  {
  }

  /** `onCredentialDiscovered`, with `GetAssertionResponseBuilder` as written. */
  function BleGetDiscovered(s: OperationState, assertion: AssertionResult, allowListSize: Int32): (r: OperationState)
    ensures r == s || r == OperationStop(s, Unknown)
  {
    BuiltAnswer(s, CtapResponses.GetAssertionResponse(assertion, allowListSize))
  }

  /** `onCredentialDiscovered`, with the corrected `GetAssertionResponseBuilder`. */
  function BleGetDiscoveredFixed(s: OperationState, assertion: AssertionResult, allowListSize: Int32): OperationState
  {
    BuiltAnswer(s, CtapResponses.GetAssertionResponseFixed(assertion, allowListSize))
  }

  /**
   * As written a discovered assertion is never answered: without the user
   * handle (or the id that must be sent) the operation stops with Unknown;
   * otherwise the builder's `AssertionError` escapes and nothing changes.
   */
  lemma BleGetNeverAnswers(s: OperationState, a: AssertionResult, allowListSize: Int32)
    ensures a.userHandle.Some? && (allowListSize != 1 ==> a.credentialId.Some?) ==> BleGetDiscovered(s, a, allowListSize) == s
    ensures !(a.userHandle.Some? && (allowListSize != 1 ==> a.credentialId.Some?)) ==>
      BleGetDiscovered(s, a, allowListSize) == OperationStop(s, Unknown)
  {
    CtapResponses.GetAssertionResponseNeverBuilt(a, allowListSize);
  }

  /**
   * With the corrected builder, a started BLE get operation given an
   * assertion with the user handle and, unless the allow list has one
   * entry, the credential id, answers its caller with a map that reads back with numberOfCredentials 1 and the
   * user handle, and with the credential exactly when the allow list does
   * not have one entry.
   */
  lemma BleGetAnswers(s: OperationState, a: AssertionResult, allowListSize: Int32)
    requires s.pending && !s.stopped
    requires a.userHandle.Some? && (allowListSize != 1 ==> a.credentialId.Some?)
    requires |CBORWriting.StrMapBytes(CtapResponses.AssertionEntries(false, a, allowListSize)).bytes| <= INT_MAX
    ensures var entries := CtapResponses.AssertionEntries(false, a, allowListSize);
      var e := CBORWriting.StrMapBytes(entries);
      && BleGetDiscoveredFixed(s, a, allowListSize).effects == s.effects + [Finished, if s.resumed then ResumeThrew else Resolved(ResponseBytes(e.bytes))]
      && CBORReading.ReadStringKeyMapAt(CBORReading.State(e.bytes, 0)).0 == Ok(entries)
      && LinkedMaps.Get(entries, CtapResponses.NUMBER_OF_CREDENTIALS) == Some(Number(1))
      && LinkedMaps.Get(entries, CtapResponses.USER) == Some(StrMap([(CtapResponses.ID, Bytes(a.userHandle.value))]))
      && (LinkedMaps.HasKey(entries, CtapResponses.CREDENTIAL) <==> allowListSize != 1)
    ensures BleGetDiscovered(s, a, allowListSize) == s
  {
    BleGetNeverAnswers(s, a, allowListSize);
    hide CBORWriting.StrMapBytes, CBORReading.ReadStringKeyMapAt, CBORContainers.EntriesReadable, CtapResponses.AssertionEntries,
         CtapResponses.GetAssertionResponseFixed, LinkedMaps.Get, LinkedMaps.HasKey, BleGetDiscoveredFixed, BleGetDiscovered;
    CtapResponses.AssertionEntriesShape(a, allowListSize);
    CtapResponses.GetAssertionResponseFixedReadsBack(a, allowListSize);
    BleGetDiscoveredBuilt(s, a, allowListSize, CBORWriting.StrMapBytes(CtapResponses.AssertionEntries(false, a, allowListSize)).bytes);
  }

  lemma BleGetDiscoveredBuilt(s: OperationState, a: AssertionResult, allowListSize: Int32, bytes: seq<Byte>)
    requires s.pending && CtapResponses.GetAssertionResponseFixed(a, allowListSize) == CtapResponses.Built(bytes)
    ensures BleGetDiscoveredFixed(s, a, allowListSize).effects == s.effects + [Finished, if s.resumed then ResumeThrew else Resolved(ResponseBytes(bytes))]
  {
    hide CtapResponses.GetAssertionResponseFixed;
  }

  /**
   * The internal session always sends what `BleGetAnswers` needs: with the
   * corrected builder every assertion it discovers reaches the BLE client
   * as a readable map; as written none of them does, and the operation is
   * left as it was.
   */
  lemma BleGetAnswersInternalSession(s: OperationState, options: CtapOptions.GetAssertionOptions, st: CredentialStores.Store, setting: Setting, env: GetAssertionSessions.Environment)
    requires s.pending && !s.stopped && |options.allowCredential| <= INT_MAX
    requires SelectionInRange(st, BleGetRequest(options), env)
    requires GetAssertionRun(st, BleGetRequest(options), setting, env).0.Succeeded?
    requires var a := GetAssertionRun(st, BleGetRequest(options), setting, env).0.value.assertion;
      |CBORWriting.StrMapBytes(CtapResponses.AssertionEntries(false, a, |options.allowCredential|)).bytes| <= INT_MAX
    ensures var a := GetAssertionRun(st, BleGetRequest(options), setting, env).0.value.assertion;
      var e := CBORWriting.StrMapBytes(CtapResponses.AssertionEntries(false, a, |options.allowCredential|));
      && BleGetDiscoveredFixed(s, a, |options.allowCredential|).effects == s.effects + [Finished, if s.resumed then ResumeThrew else Resolved(ResponseBytes(e.bytes))]
      && BleGetDiscovered(s, a, |options.allowCredential|) == s
      && CBORReading.ReadStringKeyMapAt(CBORReading.State(e.bytes, 0)).0 == Ok(CtapResponses.AssertionEntries(false, a, |options.allowCredential|))
      && (LinkedMaps.HasKey(CtapResponses.AssertionEntries(false, a, |options.allowCredential|), CtapResponses.CREDENTIAL) <==> |options.allowCredential| != 1)
  {
    hide CBORWriting.StrMapBytes, CBORReading.ReadStringKeyMapAt, CtapResponses.AssertionEntries, BleGetDiscovered, BleGetDiscoveredFixed, LinkedMaps.HasKey;
    var req := BleGetRequest(options);
    DiscoveredAssertion(st, req, setting, env);
    var a := GetAssertionRun(st, req, setting, env).0.value.assertion;
    BleGetAnswers(s, a, |options.allowCredential|);
    BleGetNeverAnswers(s, a, |options.allowCredential|);
  }

  /**
   * As in the client `CreateOperation`, a refusal in `onAvailable` of either
   * BLE operation rejects the caller with Unsupported, and the stop the
   * cancelled session reports back through `onOperationStopped` resumes the
   * held continuation a second time, which throws.
   */
  lemma RefusedBleResumesTwice(s: OperationState, mc: CtapOptions.MakeCredentialOptions, ga: CtapOptions.GetAssertionOptions, session: SessionInfo)
    requires s.pending && !s.stopped && !s.resumed
    ensures (mc.requireResidentKey && !session.canStoreResidentKey) || (mc.requireUserVerification && !session.canPerformUserVerification) ==>
      var t := BleCreateAvailable(s, mc, session);
      && t.effects == s.effects + [SessionCancelled(Unsupported), Finished, Rejected(Unsupported)]
      && OperationStop(t, Unsupported).effects == t.effects + [SessionCancelled(Unsupported), Finished, ResumeThrew]
    ensures ga.requireUserVerification && !session.canPerformUserVerification ==>
      var t := BleGetAvailable(s, ga, session);
      && t.effects == s.effects + [SessionCancelled(Unsupported), Finished, Rejected(Unsupported)]
      && OperationStop(t, Unsupported).effects == t.effects + [SessionCancelled(Unsupported), Finished, ResumeThrew]
  {
  }

  /** `stopped` is never set in the BLE operations either. */
  lemma BleNeverStops(s: OperationState, mc: CtapOptions.MakeCredentialOptions, ga: CtapOptions.GetAssertionOptions, session: SessionInfo, b: CtapResponses.Built)
    ensures BleCreateAvailable(s, mc, session).stopped == s.stopped
    ensures BleGetAvailable(s, ga, session).stopped == s.stopped
    ensures BuiltAnswer(s, b).stopped == s.stopped
  {
  }

  /** The BLE `CreateOperation`. */
  class BleCreateOperation {
    const options: CtapOptions.MakeCredentialOptions
    const session: SessionInfo
    const lifetimeTimer: Long
    const opId: string
    var stopped: bool
    var pending: bool
    var resumed: bool
    var timerArmed: bool
    var effects: seq<Effect>

    function State(): OperationState
      reads this
    {
      OperationState(stopped, pending, resumed, timerArmed, effects)
    }

    constructor(options: CtapOptions.MakeCredentialOptions, session: SessionInfo, lifetimeTimer: Long, opId: string)
      ensures this.options == options && this.session == session && this.lifetimeTimer == lifetimeTimer && this.opId == opId
      ensures State() == OperationInitial
    {
      this.options := options;
      this.session := session;
      this.lifetimeTimer := lifetimeTimer;
      this.opId := opId;
      stopped := false;
      pending := false;
      resumed := false;
      timerArmed := false;
      effects := [];
    }

    method Start()
      modifies this
      ensures State() == OperationStart(old(State()))
    {
      if stopped || pending {
        effects := effects + [Refused(BadOperation), Finished];
        return;
      }
      pending := true;
      resumed := false;
      timerArmed := true;
      effects := effects + [SessionStarted];
    }

    method Cancel(reason: ErrorReason)
      modifies this
      ensures State() == OperationCancel(old(State()), reason, session.transport)
    {
      if pending && !stopped {
        if session.transport == Internal {
          effects := effects + [SessionCancelled(if reason == Timeout then Timeout else Cancelled)];
        } else {
          Stop(reason);
        }
      }
    }

    method Stop(reason: ErrorReason)
      modifies this
      ensures State() == OperationStop(old(State()), reason)
    {
      if pending && !stopped {
        timerArmed := false;
        effects := effects + [SessionCancelled(reason), Finished];
      }
      if pending {
        if resumed {
          effects := effects + [ResumeThrew];
        } else {
          resumed := true;
          effects := effects + [Rejected(reason)];
        }
      }
    }

    method OnTimeout()
      modifies this
      ensures State() == OperationTimeout(old(State()), session.transport)
    {
      timerArmed := false;
      Cancel(Timeout);
    }

    method OnAvailable()
      modifies this
      ensures State() == BleCreateAvailable(old(State()), options, session)
    {
      if stopped {
        return;
      }
      if options.requireResidentKey && !session.canStoreResidentKey {
        Stop(Unsupported);
        return;
      }
      if options.requireUserVerification && !session.canPerformUserVerification {
        Stop(Unsupported);
        return;
      }
      effects := effects + [SessionCalled(MakeCredentialCall(BleCreateRequest(options)))];
    }

    /** `onCredentialCreated`; `escaped` when the builder's `AssertionError` leaves the callback. */
    method OnCredentialCreated(ao: AttestationObject, statement: seq<(seq<Byte>, Value)>, jackson: JacksonCbor, utf8: CtapResponses.Utf8Encoder) returns (escaped: bool)
      modifies this
      ensures escaped <==> CtapResponses.MakeCredentialResponse(ao, statement, jackson, utf8).Escaped?
      ensures State() == BleCreateCreated(old(State()), ao, statement, jackson, utf8)
    {
      hide CtapResponses.MakeCredentialResponse;
      var built := CtapResponses.MakeCredentialResponse(ao, statement, jackson, utf8);
      escaped := built.Escaped?;
      Answer(built);
    }

    /** The end of the callback, for whatever the builder gave: stop, nothing, or complete with the bytes. */
    method Answer(built: CtapResponses.Built)
      modifies this
      ensures State() == BuiltAnswer(old(State()), built)
    {
      match built
      case BuildFailed(reason) =>
        Stop(reason);
      case Escaped =>
      case Built(bytes) =>
        timerArmed := false;
        effects := effects + [Finished];
        if pending {
          if resumed {
            effects := effects + [ResumeThrew];
            return;
          }
          effects := effects + [Resolved(ResponseBytes(bytes))];
        }
        pending := false;
    }

    method OnOperationStopped(reason: ErrorReason)
      modifies this
      ensures State() == OperationStop(old(State()), reason)
    {
      Stop(reason);
    }

    method OnUnavailable()
      modifies this
      ensures State() == OperationStop(old(State()), NotAllowed)
    {
      Stop(NotAllowed);
    }
  }

  /** The BLE `GetOperation`; `allowListSize` is fixed from the options at construction. */
  class BleGetOperation {
    const options: CtapOptions.GetAssertionOptions
    const session: SessionInfo
    const lifetimeTimer: Long
    const opId: string
    const allowListSize: Int32
    var stopped: bool
    var pending: bool
    var resumed: bool
    var timerArmed: bool
    var effects: seq<Effect>

    function State(): OperationState
      reads this
    {
      OperationState(stopped, pending, resumed, timerArmed, effects)
    }

    /** A JVM list has at most `Int.MAX_VALUE` entries. */
    constructor(options: CtapOptions.GetAssertionOptions, session: SessionInfo, lifetimeTimer: Long, opId: string)
      requires |options.allowCredential| <= INT_MAX
      ensures this.options == options && this.session == session && this.lifetimeTimer == lifetimeTimer && this.opId == opId
      ensures allowListSize == |options.allowCredential|
      ensures State() == OperationInitial
    {
      this.options := options;
      this.session := session;
      this.lifetimeTimer := lifetimeTimer;
      this.opId := opId;
      allowListSize := |options.allowCredential|;
      stopped := false;
      pending := false;
      resumed := false;
      timerArmed := false;
      effects := [];
    }

    method Start()
      modifies this
      ensures State() == OperationStart(old(State()))
    {
      if stopped || pending {
        effects := effects + [Refused(BadOperation), Finished];
        return;
      }
      pending := true;
      resumed := false;
      timerArmed := true;
      effects := effects + [SessionStarted];
    }

    method Cancel(reason: ErrorReason)
      modifies this
      ensures State() == OperationCancel(old(State()), reason, session.transport)
    {
      if pending && !stopped {
        if session.transport == Internal {
          effects := effects + [SessionCancelled(if reason == Timeout then Timeout else Cancelled)];
        } else {
          Stop(reason);
        }
      }
    }

    method Stop(reason: ErrorReason)
      modifies this
      ensures State() == OperationStop(old(State()), reason)
    {
      if pending && !stopped {
        timerArmed := false;
        effects := effects + [SessionCancelled(reason), Finished];
      }
      if pending {
        if resumed {
          effects := effects + [ResumeThrew];
        } else {
          resumed := true;
          effects := effects + [Rejected(reason)];
        }
      }
    }

    method OnTimeout()
      modifies this
      ensures State() == OperationTimeout(old(State()), session.transport)
    {
      timerArmed := false;
      Cancel(Timeout);
    }

    method OnAvailable()
      modifies this
      ensures State() == BleGetAvailable(old(State()), options, session)
    {
      if stopped {
        return;
      }
      if options.requireUserVerification && !session.canPerformUserVerification {
        Stop(Unsupported);
        return;
      }
      effects := effects + [SessionCalled(GetAssertionCall(BleGetRequest(options)))];
    }

    /** `onCredentialDiscovered`; `escaped` when the builder's `AssertionError` leaves the callback. */
    method OnCredentialDiscovered(assertion: AssertionResult) returns (escaped: bool)
      modifies this
      ensures escaped <==> CtapResponses.GetAssertionResponse(assertion, allowListSize).Escaped?
      ensures State() == BleGetDiscovered(old(State()), assertion, allowListSize)
    {
      hide CtapResponses.GetAssertionResponse;
      var built := CtapResponses.GetAssertionResponse(assertion, allowListSize);
      escaped := built.Escaped?;
      Answer(built);
    }

    /** The end of the callback, for whatever the builder gave: stop, nothing, or complete with the bytes. */
    method Answer(built: CtapResponses.Built)
      modifies this
      ensures State() == BuiltAnswer(old(State()), built)
    {
      match built
      case BuildFailed(reason) =>
        Stop(reason);
      case Escaped =>
      case Built(bytes) =>
        timerArmed := false;
        effects := effects + [Finished];
        if pending {
          if resumed {
            effects := effects + [ResumeThrew];
            return;
          }
          effects := effects + [Resolved(ResponseBytes(bytes))];
        }
        pending := false;
    }

    method OnOperationStopped(reason: ErrorReason)
      modifies this
      ensures State() == OperationStop(old(State()), reason)
    {
      Stop(reason);
    }

    method OnUnavailable()
      modifies this
      ensures State() == OperationStop(old(State()), NotAllowed)
    {
      Stop(NotAllowed);
    }
  }

  /** `BleFidoOperationManager`: the authenticator is represented by the sessions it hands out. */
  class BleFidoOperationManager {
    const makeCredentialSession: SessionInfo
    const getAssertionSession: SessionInfo
    var getOperations: map<string, BleGetOperation>
    var createOperations: map<string, BleCreateOperation>

    /** Every operation is registered under its own id. */
    ghost predicate Valid()
      reads this
    {
      && (forall id :: id in getOperations ==> getOperations[id].opId == id)
      && (forall id :: id in createOperations ==> createOperations[id].opId == id)
    }

    constructor(makeCredentialSession: SessionInfo, getAssertionSession: SessionInfo)
      ensures this.makeCredentialSession == makeCredentialSession && this.getAssertionSession == getAssertionSession
      ensures getOperations == map[] && createOperations == map[]
      ensures Valid()
    {
      this.makeCredentialSession := makeCredentialSession;
      this.getAssertionSession := getAssertionSession;
      getOperations := map[];
      createOperations := map[];
    }

    /** `hasActiveOperation()`: some operation of either kind is registered. */
    function HasActiveOperation(): (r: bool)
      reads this
      ensures r <==> (exists id :: id in getOperations) || (exists id :: id in createOperations)
    {
      getOperations != map[] || createOperations != map[]
    }

    /** `get(options, timeout)`: registered under its id before it is started. */
    method Get(options: CtapOptions.GetAssertionOptions, timeout: Long, opId: string) returns (op: BleGetOperation)
      requires Valid() && |options.allowCredential| <= INT_MAX
      modifies this
      ensures Valid() && fresh(op)
      ensures getOperations == old(getOperations)[opId := op] && createOperations == old(createOperations)
      ensures op.options == options && op.session == getAssertionSession && op.lifetimeTimer == timeout && op.opId == opId
      ensures op.State() == OperationStart(OperationInitial)
      ensures HasActiveOperation()
    {
      op := new BleGetOperation(options, getAssertionSession, timeout, opId);
      getOperations := getOperations[op.opId := op];
      assert opId in getOperations;
      op.Start();
    }

    /** `create(options, timeout)`. */
    method Create(options: CtapOptions.MakeCredentialOptions, timeout: Long, opId: string) returns (op: BleCreateOperation)
      requires Valid()
      modifies this
      ensures Valid() && fresh(op)
      ensures createOperations == old(createOperations)[opId := op] && getOperations == old(getOperations)
      ensures op.options == options && op.session == makeCredentialSession && op.lifetimeTimer == timeout && op.opId == opId
      ensures op.State() == OperationStart(OperationInitial)
      ensures HasActiveOperation()
    {
      op := new BleCreateOperation(options, makeCredentialSession, timeout, opId);
      createOperations := createOperations[op.opId := op];
      assert opId in createOperations;
      op.Start();
    }

    /** `cancel()`: every registered operation is cancelled with the default reason, Timeout. */
    method Cancel()
      requires Valid()
      modifies getOperations.Values, createOperations.Values
      ensures forall op :: op in getOperations.Values ==> op.State() == OperationCancel(old(op.State()), Timeout, op.session.transport)
      ensures forall op :: op in createOperations.Values ==> op.State() == OperationCancel(old(op.State()), Timeout, op.session.transport)
    {
      CancelGets();
      CancelCreates();
    }

    /** The first `forEach` of `cancel()`. */
    method CancelGets()
      modifies getOperations.Values
      ensures forall op :: op in getOperations.Values ==> op.State() == OperationCancel(old(op.State()), Timeout, op.session.transport)
    {
      var gets := getOperations.Values;
      while gets != {}
        invariant gets <= getOperations.Values
        invariant forall op :: op in getOperations.Values && op in gets ==> op.State() == old(op.State())
        invariant forall op :: op in getOperations.Values && op !in gets ==> op.State() == OperationCancel(old(op.State()), Timeout, op.session.transport)
        decreases gets
      {
        var op :| op in gets;
        op.Cancel(Timeout);
        gets := gets - {op};
      }
    }

    /** The second `forEach` of `cancel()`. */
    method CancelCreates()
      modifies createOperations.Values
      ensures forall op :: op in createOperations.Values ==> op.State() == OperationCancel(old(op.State()), Timeout, op.session.transport)
    {
      var creates := createOperations.Values;
      while creates != {}
        invariant creates <= createOperations.Values
        invariant forall op :: op in createOperations.Values && op in creates ==> op.State() == old(op.State())
        invariant forall op :: op in createOperations.Values && op !in creates ==> op.State() == OperationCancel(old(op.State()), Timeout, op.session.transport)
        decreases creates
      {
        var op :| op in creates;
        op.Cancel(Timeout);
        creates := creates - {op};
      }
    }

    /** `onFinish(opType, opId)`: only that id leaves the registry of its type. */
    method OnFinish(opType: OperationType, opId: string)
      requires Valid()
      modifies this
      ensures Valid()
      ensures opType == GetOperationType ==> getOperations == old(getOperations) - {opId} && createOperations == old(createOperations)
      ensures opType == CreateOperationType ==> createOperations == old(createOperations) - {opId} && getOperations == old(getOperations)
    {
      match opType
      case GetOperationType =>
        if opId in getOperations {
          getOperations := getOperations - {opId};
        }
      case CreateOperationType =>
        if opId in createOperations {
          createOperations := createOperations - {opId};
        }
    }
  }
}
