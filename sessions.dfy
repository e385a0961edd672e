/**
 * What the two internal authenticator sessions share: their setting, the
 * key store and user interface outcomes they depend on, and the
 * `started`/`stopped` lifecycle with the listener calls it makes.
 */
module Sessions {
  import opened Wrappers
  import opened JvmTypes
  import opened WebAuthnData
  import opened AuthData
  import opened Attestation
  import opened KeySupports

  /** `InternalAuthenticatorSetting`. */
  datatype Setting = Setting(attachment: AuthenticatorAttachment, transport: AuthenticatorTransport, counterStep: UInt, allowUserVerification: bool)

  /** The defaults: a platform authenticator on the internal transport, counter step 1, user verification allowed. */
  const DefaultSetting := Setting(Platform, Internal, 1, true)

  /** What a user interface request ends with: a value, or one of the three exceptions the sessions catch. */
  datatype Consent<T> = Granted(value: T) | ConsentCancelled | ConsentTimeout | ConsentFailed

  /** `CancelledException` gives Cancelled, `TimeoutException` Timeout, any other exception Unknown. */
  function ConsentFailure<T>(c: Consent<T>): (r: ErrorReason)
    requires !c.Granted?
    ensures r == Cancelled || r == Timeout || r == Unknown
    ensures (r == Cancelled <==> c.ConsentCancelled?) && (r == Timeout <==> c.ConsentTimeout?)
  {
    match c
    case ConsentCancelled => Cancelled
    case ConsentTimeout => Timeout
    case ConsentFailed => Unknown
  }

  /** The key store back end's operations, which the model leaves uninterpreted (None: the call returned null). */
  datatype KeyOracles = KeyOracles(
    createKeyPair: (KeySupport, string, seq<Byte>) -> Option<CoseKey>,
    sign: (KeySupport, string, seq<Byte>) -> Option<seq<Byte>>,
    buildAttestationObject: (KeySupport, string, AuthenticatorData, seq<Byte>) -> Option<AttestationObject>)

  /** The library codecs the sessions call. */
  datatype Codecs = Codecs(jackson: JacksonCbor, base64: Base64Url, sha256: Sha256)

  /** `AuthenticatorAssertionResult`. */
  datatype AssertionResult = AssertionResult(credentialId: Option<seq<Byte>>, userHandle: Option<seq<Byte>>, signature: seq<Byte>, authenticatorData: seq<Byte>)

  /** A listener call, or the `ui.cancel` a session forwards. */
  datatype SessionEvent =
    | Available
    | OperationStopped(reason: ErrorReason)
    | UiCancelled(uiReason: ErrorReason)
    | CredentialCreated(attestation: AttestationObject)
    | CredentialDiscovered(assertion: AssertionResult)

  /** How a session script ends: a `stop(reason)`, an exception nobody catches, or success. */
  datatype RunResult<T> = Failed(reason: ErrorReason) | Crashed | Succeeded(value: T)

  /** The session's flags and the listener calls made so far. */
  datatype Lifecycle = Lifecycle(started: bool, stopped: bool, events: seq<SessionEvent>)

  const Initial := Lifecycle(false, false, [])

  /** `start()`: only the first start of a session that has not stopped marks it started and calls `onAvailable`. */
  function StartStep(l: Lifecycle): Lifecycle
  {
    if l.stopped || l.started then l else Lifecycle(true, false, l.events + [Available])
  }

  /** `stop(reason)`: acts only on a started session that has not stopped, and then calls `onOperationStopped`. */
  function StopStep(l: Lifecycle, reason: ErrorReason): Lifecycle
  {
    if !l.started || l.stopped then l else Lifecycle(true, true, l.events + [OperationStopped(reason)])
  }

  /** `cancel(reason)`: nothing once stopped; with the user interface open it is cancelled instead; otherwise `stop`. */
  function CancelStep(l: Lifecycle, reason: ErrorReason, uiOpen: bool): Lifecycle
  {
    if l.stopped then l
    else if uiOpen then l.(events := l.events + [UiCancelled(reason)])
    else StopStep(l, reason)
  }

  /** `onComplete()` followed by the listener's success call. */
  function CompleteStep(l: Lifecycle, e: SessionEvent): Lifecycle
  {
    l.(stopped := true, events := l.events + [e])
  }

  /** The number of `onOperationStopped` calls. */
  function StopCount(events: seq<SessionEvent>): nat
  {
    if events == [] then 0
    else StopCount(events[..|events| - 1]) + (if events[|events| - 1].OperationStopped? then 1 else 0)
  }

  lemma StopCountAppend(events: seq<SessionEvent>, e: SessionEvent)
    ensures StopCount(events + [e]) == StopCount(events) + (if e.OperationStopped? then 1 else 0)
  {
    assert (events + [e])[..|events|] == events;
  }

  /** A session that has not stopped has not reported a stop, and none reports two. */
  ghost predicate Consistent(l: Lifecycle)
  {
    StopCount(l.events) <= 1 && (!l.stopped ==> StopCount(l.events) == 0)
  }

  /** Every step keeps the lifecycle consistent, and none clears `stopped`. */
  lemma StepsPreserveConsistency(l: Lifecycle, reason: ErrorReason, uiOpen: bool, e: SessionEvent)
    requires Consistent(l) && !e.OperationStopped?
    ensures Consistent(StartStep(l)) && Consistent(StopStep(l, reason)) && Consistent(CancelStep(l, reason, uiOpen)) && Consistent(CompleteStep(l, e))
    ensures l.stopped ==> StartStep(l).stopped && StopStep(l, reason).stopped && CancelStep(l, reason, uiOpen).stopped
  {
    StopCountAppend(l.events, Available);
    StopCountAppend(l.events, OperationStopped(reason));
    StopCountAppend(l.events, UiCancelled(reason));
    StopCountAppend(l.events, e);
  }

  /**
   * The flag rules: a second start does nothing, a stop before start does
   * nothing, a stopped or completed session ignores start, stop and cancel,
   * and with the user interface open a cancel does not stop the session.
   */
  lemma LifecycleRules(l: Lifecycle, reason: ErrorReason, reason': ErrorReason, uiOpen: bool, e: SessionEvent)
    ensures StartStep(StartStep(l)) == StartStep(l)
    ensures StopStep(Initial, reason) == Initial
    ensures StopStep(StopStep(l, reason), reason') == StopStep(l, reason)
    ensures var c := CompleteStep(l, e);
      StartStep(c) == c && StopStep(c, reason) == c && CancelStep(c, reason, uiOpen) == c
    ensures !CancelStep(l, reason, true).stopped <== !l.stopped
    ensures StartStep(l) != l <==> !l.started && !l.stopped
  {
  }
}

/** `InternalMakeCredentialSession.kt`. */
module MakeCredentialSessions {
  import opened Wrappers
  import opened JvmTypes
  import opened WebAuthnData
  import opened ByteArrays
  import opened AuthData
  import opened Attestation
  import opened CredentialSources
  import opened CredentialStores
  import opened KeySupports
  import opened Sessions

  datatype MakeCredentialRequest = MakeCredentialRequest(
    hash: seq<Byte>,
    rpEntity: PublicKeyCredentialRpEntity,
    userEntity: PublicKeyCredentialUserEntity,
    requireResidentKey: bool,
    requireUserPresence: bool,
    requireUserVerification: bool,
    credTypesAndPubKeyAlgs: seq<PublicKeyCredentialParameters>,
    excludeCredentialDescriptorList: seq<PublicKeyCredentialDescriptor>)

  /** What the script depends on besides the store: the platform version, the user's answer, the random UUID and the oracles. */
  datatype Environment = Environment(sdk: int, consent: Consent<string>, uuid: (Long, Long), keys: KeyOracles, codecs: Codecs)

  /** A created credential: the attestation object the back end built, and the source and authenticator data it was built from. */
  datatype Created = Created(attestation: AttestationObject, source: Source, authData: AuthenticatorData)

  /** `credTypesAndPubKeyAlgs.map { it.alg }`. */
  function Algorithms(ps: seq<PublicKeyCredentialParameters>): (r: seq<Int32>)
    ensures |r| == |ps| && forall i :: 0 <= i < |ps| ==> r[i] == ps[i].alg
  {
    if ps == [] then [] else [ps[0].alg] + Algorithms(ps[1..])
  }

  /** `excludeCredentialDescriptorList.any { lookupCredentialSource(it.id) != null }`. */
  function AnyExcludedStored(st: Store, ds: seq<PublicKeyCredentialDescriptor>): (r: bool)
    ensures r <==> exists i, s :: 0 <= i < |ds| && s in st.rows && s.id == ds[i].id
    decreases |ds|
  {
    if ds == [] then false
    else if Lookup(st, ds[0].id).Some? then true
    else
      var rest := AnyExcludedStored(st, ds[1..]);
      assert rest <==> exists i, s :: 1 <= i < |ds| && s in st.rows && s.id == ds[i].id by {
        forall i | 1 <= i < |ds| ensures ds[1..][i - 1] == ds[i] { }
      }
      rest
  }

  /** The authenticator data of a new credential. */
  function NewAuthenticatorData(rpIdHash: seq<Byte>, req: MakeCredentialRequest, acd: AttestedCredentialData): AuthenticatorData
  {
    AuthenticatorData(rpIdHash, req.requireUserPresence || req.requireUserVerification, req.requireUserVerification, 0, Some(acd), [])
  }

  /**
   * The body of `makeCredential`'s coroutine, step by step: choose a key
   * back end, refuse excluded credentials, check user verification, ask
   * for consent, then delete the user's old credentials, create the key
   * pair, save the source and build the attestation. Returns the result
   * and the store as the script leaves it.
   */
  function MakeCredentialRun(st: Store, req: MakeCredentialRequest, setting: Setting, env: Environment): (r: (RunResult<Created>, Store))
    ensures r.1 != st ==> env.consent.Granted? && req.rpEntity.id.Some?
    ensures r.0.Succeeded? ==>
      && env.consent.Granted? && ES256 in Algorithms(req.credTypesAndPubKeyAlgs)
      && r.0.value.source.signCount == 0 && r.0.value.source.id == FromUUID(env.uuid.0, env.uuid.1)
      && Some(r.0.value.source.rpId) == req.rpEntity.id && r.0.value.source.userHandle == req.userEntity.id
      && r.0.value.source.otherUI == env.consent.value
  {
    ChosenProperties(env.sdk, Algorithms(req.credTypesAndPubKeyAlgs));
    match Chosen(env.sdk, Algorithms(req.credTypesAndPubKeyAlgs))
    case None => (Failed(Unsupported), st)
    case Some(ks) =>
      if AnyExcludedStored(st, req.excludeCredentialDescriptorList) then (Failed(Unknown), st)
      else if req.requireUserVerification && !setting.allowUserVerification then (Failed(Constraint), st)
      else if !env.consent.Granted? then (Failed(ConsentFailure(env.consent)), st)
      else
        var keyName := env.consent.value;
        var credentialId := FromUUID(env.uuid.0, env.uuid.1);
        if req.rpEntity.id.None? then (Crashed, st)
        else
          var rpId := req.rpEntity.id.value;
          var source := Source(0, credentialId, rpId, req.userEntity.id, ks.alg, keyName);
          var st1 := DeleteAllFor(st, rpId, req.userEntity.id);
          match env.keys.createKeyPair(ks, KeyLabel(source), req.hash)
          case None => (Failed(Unknown), st1)
          case Some(pubKey) =>
            var saved := Save(st1, source, ToBase64(source, env.codecs.jackson, env.codecs.base64));
            if !saved.0 then (Failed(Unknown), saved.1)
            else
              var acd := AttestedCredentialData(ZeroUUIDBytes(), credentialId, pubKey);
              var authData := NewAuthenticatorData(env.codecs.sha256(rpId), req, acd);
              match env.keys.buildAttestationObject(ks, KeyLabel(source), authData, req.hash)
              case None => (Failed(Unknown), saved.1)
              case Some(att) => (Succeeded(Created(att, source, authData)), saved.1)
  }

  /** The checks run in order: no key back end, then an excluded credential in the store, then user verification not allowed; each leaves the store alone. */
  lemma CheckOrder(st: Store, req: MakeCredentialRequest, setting: Setting, env: Environment)
    ensures var algs := Algorithms(req.credTypesAndPubKeyAlgs);
      var excluded := exists i, s :: 0 <= i < |req.excludeCredentialDescriptorList| && s in st.rows && s.id == req.excludeCredentialDescriptorList[i].id;
      var r := MakeCredentialRun(st, req, setting, env);
      (ES256 !in algs ==> r == (Failed(Unsupported), st))
      && (ES256 in algs && excluded ==> r == (Failed(Unknown), st))
      && (ES256 in algs && !excluded && req.requireUserVerification && !setting.allowUserVerification ==> r == (Failed(Constraint), st))
      && (ES256 in algs && !excluded && (req.requireUserVerification ==> setting.allowUserVerification) && !env.consent.Granted?
          ==> r == (Failed(ConsentFailure(env.consent)), st))
  {
    ChosenProperties(env.sdk, Algorithms(req.credTypesAndPubKeyAlgs));
  }

  /** The checks that pass before a new credential can be made. */
  predicate Admitted(st: Store, req: MakeCredentialRequest, setting: Setting, env: Environment)
  {
    ES256 in Algorithms(req.credTypesAndPubKeyAlgs)
    && !AnyExcludedStored(st, req.excludeCredentialDescriptorList)
    && (req.requireUserVerification ==> setting.allowUserVerification)
    && env.consent.Granted?
  }

  /** A relying party entity without an id makes `rpEntity.id!!` throw once consent is given. */
  lemma MissingRpIdCrashes(st: Store, req: MakeCredentialRequest, setting: Setting, env: Environment)
    requires Admitted(st, req, setting, env) && req.rpEntity.id.None?
    ensures MakeCredentialRun(st, req, setting, env) == (Crashed, st)
  {
    ChosenProperties(env.sdk, Algorithms(req.credTypesAndPubKeyAlgs));
  }

  /**
   * A created credential: a new es256 source with counter 0 under the id
   * made from the UUID, stored as the only credential of that user at
   * that relying party; authenticator data with UP = UP or UV, UV = UV,
   * counter 0, the zero AAGUID, the source's id, the SHA-256 of the
   * relying party id and no extensions.
   */
  lemma CreatedCredential(st: Store, req: MakeCredentialRequest, setting: Setting, env: Environment)
    requires Valid(st)
    requires MakeCredentialRun(st, req, setting, env).0.Succeeded?
    ensures var (r, st') := MakeCredentialRun(st, req, setting, env);
      var c := r.value;
      var rpId := req.rpEntity.id.value;
      req.rpEntity.id.Some? && c.source == Source(0, FromUUID(env.uuid.0, env.uuid.1), rpId, req.userEntity.id, ES256, env.consent.value)
      && c.authData.userPresent == (req.requireUserPresence || req.requireUserVerification)
      && c.authData.userVerified == req.requireUserVerification
      && c.authData.signCount == 0 && c.authData.extensions == [] && c.authData.rpIdHash == env.codecs.sha256(rpId)
      && c.authData.attestedCredentialData == Some(AttestedCredentialData(ZeroUUIDBytes(), c.source.id, c.authData.attestedCredentialData.value.credentialPublicKey))
      && Valid(st') && Lookup(st', c.source.id) == Some(c.source)
      && (forall s :: s in st'.rows && s.rpId == rpId && s.userHandle == req.userEntity.id ==> s == c.source)
  {
    ChosenProperties(env.sdk, Algorithms(req.credTypesAndPubKeyAlgs));
    var ks := Chosen(env.sdk, Algorithms(req.credTypesAndPubKeyAlgs)).value;
    var rpId := req.rpEntity.id.value;
    var source := Source(0, FromUUID(env.uuid.0, env.uuid.1), rpId, req.userEntity.id, ks.alg, env.consent.value);
    var st1 := DeleteAllFor(st, rpId, req.userEntity.id);
    DeleteAllForEffect(st, rpId, req.userEntity.id);
    var content := ToBase64(source, env.codecs.jackson, env.codecs.base64);
    SaveEffect(st1, source, content);
    var st' := Save(st1, source, content).1;
    forall s | s in st'.rows && s.rpId == rpId && s.userHandle == req.userEntity.id
      ensures s == source
    {
      assert s.id == source.id;
      IdHexIdentifies(s, source);
      SameKeySameRow(st', s, source);
    }
  }

  /**
   * The old credentials are deleted before the key pair is created, so a
   * failed key creation has already removed them: the user is left with
   * no credential at that relying party.
   */
  lemma KeyCreationFailureLosesOldCredentials(st: Store, req: MakeCredentialRequest, setting: Setting, env: Environment)
    requires Valid(st) && Admitted(st, req, setting, env) && req.rpEntity.id.Some?
    requires Chosen(env.sdk, Algorithms(req.credTypesAndPubKeyAlgs)).Some?
    requires var ks := Chosen(env.sdk, Algorithms(req.credTypesAndPubKeyAlgs)).value;
      var source := Source(0, FromUUID(env.uuid.0, env.uuid.1), req.rpEntity.id.value, req.userEntity.id, ks.alg, env.consent.value);
      env.keys.createKeyPair(ks, KeyLabel(source), req.hash).None?
    ensures var (r, st') := MakeCredentialRun(st, req, setting, env);
      r == Failed(Unknown)
      && forall s :: s in st'.rows ==> !(s.rpId == req.rpEntity.id.value && s.userHandle == req.userEntity.id)
  {
    ChosenProperties(env.sdk, Algorithms(req.credTypesAndPubKeyAlgs));
    DeleteAllForEffect(st, req.rpEntity.id.value, req.userEntity.id);
  }

  /** `InternalMakeCredentialSession`: the flags, the listener calls and the store it writes. */
  class MakeCredentialSession {
    const setting: Setting
    var started: bool
    var stopped: bool
    var events: seq<SessionEvent>
    var store: Store

    function Life(): Lifecycle
      reads this
    {
      Lifecycle(started, stopped, events)
    }

    constructor(setting: Setting, store: Store)
      ensures this.setting == setting && this.store == store && Life() == Initial
    {
      this.setting := setting;
      this.store := store;
      started := false;
      stopped := false;
      events := [];
    }

    /**
     * The answers of `canPerformUserVerification()` and `canStoreResidentKey()`,
     * in that order: this session answers true to both.
     */
    function Capabilities(): (r: (bool, bool))
      ensures r.0 && r.1
    {
      (true, true)
    }

    method Start()
      modifies this
      ensures Life() == StartStep(old(Life())) && store == old(store)
    {
      if stopped {
        return;
      }
      if started {
        return;
      }
      started := true;
      events := events + [Available];
    }

    method Stop(reason: ErrorReason)
      modifies this
      ensures Life() == StopStep(old(Life()), reason) && store == old(store)
    {
      if !started {
        return;
      }
      if stopped {
        return;
      }
      stopped := true;
      events := events + [OperationStopped(reason)];
    }

    /** `cancel(reason)`, with `ui.isOpen` as a parameter. */
    method Cancel(reason: ErrorReason, uiOpen: bool)
      modifies this
      ensures Life() == CancelStep(old(Life()), reason, uiOpen) && store == old(store)
    {
      if stopped {
        return;
      }
      if uiOpen {
        events := events + [UiCancelled(reason)];
        return;
      }
      Stop(reason);
    }

    method OnComplete()
      modifies this
      ensures Life() == old(Life()).(stopped := true) && store == old(store)
    {
      stopped := true;
    }

    /** `makeCredential(...)`: the script's store, then `stop`, nothing (an uncaught exception) or `onComplete` and `onCredentialCreated`. */
    method MakeCredential(req: MakeCredentialRequest, env: Environment)
      modifies this
      ensures var (r, st) := MakeCredentialRun(old(store), req, setting, env);
        store == st
        && (r.Failed? ==> Life() == StopStep(old(Life()), r.reason))
        && (r.Crashed? ==> Life() == old(Life()))
        && (r.Succeeded? ==> Life() == CompleteStep(old(Life()), CredentialCreated(r.value.attestation)))
    {
      var run := MakeCredentialRun(store, req, setting, env);
      store := run.1;
      match run.0
      case Failed(reason) =>
        Stop(reason);
      case Crashed =>
      case Succeeded(created) =>
        OnComplete();
        events := events + [CredentialCreated(created.attestation)];
    }
  }
}

/** `InternalGetAssertionSession.kt`. */
module GetAssertionSessions {
  import opened Wrappers
  import opened JvmTypes
  import opened WebAuthnData
  import opened ByteArrays
  import opened AuthData
  import opened CredentialSources
  import opened CredentialStores
  import opened KeySupports
  import opened Sessions

  datatype GetAssertionRequest = GetAssertionRequest(
    rpId: string,
    hash: seq<Byte>,
    allowCredentialDescriptorList: seq<PublicKeyCredentialDescriptor>,
    requireUserPresence: bool,
    requireUserVerification: bool)

  /** The platform version, the index of the source the user selects, and the oracles. */
  datatype Environment = Environment(sdk: int, selection: Consent<nat>, keys: KeyOracles, codecs: Codecs)

  /** An assertion and what it was made from. */
  datatype Discovered = Discovered(assertion: AssertionResult, credential: Source, authData: AuthenticatorData, signedData: seq<Byte>)

  /** `allowCredentialDescriptorList.mapNotNull { lookupCredentialSource(it.id) }`. */
  function LookupAll(st: Store, ds: seq<PublicKeyCredentialDescriptor>): (r: seq<Source>)
    ensures |r| <= |ds|
    ensures forall s :: s in r ==> s in st.rows && exists i :: 0 <= i < |ds| && ds[i].id == s.id
    decreases |ds|
  {
    if ds == [] then []
    else
      var rest := LookupAll(st, ds[1..]);
      assert forall s :: s in rest ==> exists i :: 0 <= i < |ds| && ds[i].id == s.id by {
        forall s | s in rest ensures exists i :: 0 <= i < |ds| && ds[i].id == s.id {
          var i :| 0 <= i < |ds[1..]| && ds[1..][i].id == s.id;
          assert ds[i + 1].id == s.id;
        }
      }
      match Lookup(st, ds[0].id)
      case None => rest
      case Some(s) => [s] + rest
  }

  /** Every descriptor whose id is stored contributes its source. */
  lemma {:induction false} LookupAllComplete(st: Store, ds: seq<PublicKeyCredentialDescriptor>, i: int)
    requires 0 <= i < |ds| && Lookup(st, ds[i].id).Some?
    ensures Lookup(st, ds[i].id).value in LookupAll(st, ds)
    decreases |ds|
  {
    if i > 0 {
      assert ds[1..][i - 1] == ds[i];
      LookupAllComplete(st, ds[1..], i - 1);
    }
  }

  /** `gatherCredentialSources`: all the relying party's sources for an empty allow list, the listed ones otherwise. */
  function Gather(st: Store, rpId: string, ds: seq<PublicKeyCredentialDescriptor>): (r: seq<Source>)
  {
    if ds == [] then LoadAll(st, rpId) else LookupAll(st, ds)
  }

  /** What the gathered list holds: the relying party's stored sources, or the stored sources of the listed ids. */
  lemma GatherContents(st: Store, rpId: string, ds: seq<PublicKeyCredentialDescriptor>)
    ensures ds == [] ==> forall s :: s in Gather(st, rpId, ds) <==> s in st.rows && s.rpId == rpId
    ensures ds != [] ==> forall s :: s in Gather(st, rpId, ds) ==> s in st.rows && exists i :: 0 <= i < |ds| && ds[i].id == s.id
    ensures ds != [] ==> forall i :: 0 <= i < |ds| && Lookup(st, ds[i].id).Some? ==> Lookup(st, ds[i].id).value in Gather(st, rpId, ds)
  {
    if ds != [] {
      forall i | 0 <= i < |ds| && Lookup(st, ds[i].id).Some?
        ensures Lookup(st, ds[i].id).value in Gather(st, rpId, ds)
      {
        LookupAllComplete(st, ds, i);
      }
    }
  }

  /** A listed id is looked up without checking its relying party: another party's credential is gathered. */
  lemma GatherIgnoresRelyingParty()
    ensures var s := Source(0, [1], "a.example", [7], -7, "");
      var st := Store([s]);
      s in Gather(st, "b.example", [PublicKeyCredentialDescriptor([1], [])]) && s.rpId != "b.example"
  {
    var s := Source(0, [1], "a.example", [7], -7, "");
    var d := PublicKeyCredentialDescriptor([1], []);
    assert Lookup(Store([s]), d.id) == Some(s);
    assert LookupAll(Store([s]), [d]) == [s] + LookupAll(Store([s]), []);
  }

  /** The selection index must name one of the gathered sources. */
  predicate SelectionInRange(st: Store, req: GetAssertionRequest, env: Environment)
  {
    env.selection.Granted? ==> env.selection.value < |Gather(st, req.rpId, req.allowCredentialDescriptorList)|
  }

  /** The authenticator data of an assertion. */
  function AssertionAuthData(rpIdHash: seq<Byte>, req: GetAssertionRequest, cred: Source): AuthenticatorData
  {
    AuthenticatorData(rpIdHash, req.requireUserPresence || req.requireUserVerification, req.requireUserVerification, cred.signCount, None, [])
  }

  /**
   * The body of `getAssertion`'s coroutine: gather the candidates, let
   * the user select one, bump and save its counter, build the
   * authenticator data, pick the key back end, sign the authenticator
   * data followed by the hash, and assemble the result.
   */
  function GetAssertionRun(st: Store, req: GetAssertionRequest, setting: Setting, env: Environment): (r: (RunResult<Discovered>, Store))
    requires SelectionInRange(st, req, env)
    ensures r.1 != st ==> env.selection.Granted?
    ensures r.0.Succeeded? ==>
      && (r.0.value.assertion.credentialId.Some? <==> |req.allowCredentialDescriptorList| != 1)
      && r.0.value.assertion.userHandle == Some(r.0.value.credential.userHandle)
      && r.0.value.signedData == r.0.value.assertion.authenticatorData + req.hash
  {
    var sources := Gather(st, req.rpId, req.allowCredentialDescriptorList);
    if sources == [] then (Failed(NotAllowed), st)
    else if !env.selection.Granted? then (Failed(ConsentFailure(env.selection)), st)
    else
      var picked := sources[env.selection.value];
      var cred := picked.(signCount := AddUInt(picked.signCount, setting.counterStep));
      var saved := Save(st, cred, ToBase64(cred, env.codecs.jackson, env.codecs.base64));
      if !saved.0 then (Failed(Unknown), saved.1)
      else
        var authData := AssertionAuthData(env.codecs.sha256(req.rpId), req, cred);
        match Chosen(env.sdk, [cred.alg])
        case None => (Failed(Unsupported), saved.1)
        case Some(ks) =>
          match AuthData.ToBytes(authData, env.codecs.jackson)
          case None => (Failed(Unknown), saved.1)
          case Some(authDataBytes) =>
            var signedData := authDataBytes + req.hash;
            match env.keys.sign(ks, KeyLabel(cred), signedData)
            case None => (Failed(Unknown), saved.1)
            case Some(signature) =>
              var credentialId := if |req.allowCredentialDescriptorList| != 1 then Some(cred.id) else None;
              (Succeeded(Discovered(AssertionResult(credentialId, Some(cred.userHandle), signature, authDataBytes), cred, authData, signedData)), saved.1)
  }

  /** No candidate gives NotAllowed, a failed selection its consent failure, both with the store unchanged. */
  lemma EarlyFailures(st: Store, req: GetAssertionRequest, setting: Setting, env: Environment)
    requires SelectionInRange(st, req, env)
    ensures Gather(st, req.rpId, req.allowCredentialDescriptorList) == [] ==> GetAssertionRun(st, req, setting, env) == (Failed(NotAllowed), st)
    ensures Gather(st, req.rpId, req.allowCredentialDescriptorList) != [] && !env.selection.Granted? ==>
      GetAssertionRun(st, req, setting, env) == (Failed(ConsentFailure(env.selection)), st)
  {
  }

  /** Authenticator data without attested credential data always encodes, so that failure cannot happen here. */
  lemma AssertionAuthDataEncodes(rpIdHash: seq<Byte>, req: GetAssertionRequest, cred: Source, jackson: JacksonCbor)
    ensures AuthData.ToBytes(AssertionAuthData(rpIdHash, req, cred), jackson).Some?
  {
  }

  /**
   * A selected source has its counter raised by the step (mod 2^32) and is
   * saved before anything is signed; a failed save gives Unknown and
   * changes nothing. The saved counter stays even when a later step fails.
   */
  lemma CounterBumpedAndSaved(st: Store, req: GetAssertionRequest, setting: Setting, env: Environment)
    requires Valid(st) && SelectionInRange(st, req, env)
    requires Gather(st, req.rpId, req.allowCredentialDescriptorList) != [] && env.selection.Granted?
    ensures var picked := Gather(st, req.rpId, req.allowCredentialDescriptorList)[env.selection.value];
      var cred := picked.(signCount := (picked.signCount + setting.counterStep) % 0x1_0000_0000);
      var (r, st') := GetAssertionRun(st, req, setting, env);
      (ToBase64(cred, env.codecs.jackson, env.codecs.base64).None? ==> r == Failed(Unknown) && st' == st)
      && (ToBase64(cred, env.codecs.jackson, env.codecs.base64).Some? ==> Valid(st') && Lookup(st', picked.id) == Some(cred))
  {
    hide *;
    SelectedInRange(st, req, env);
    var picked := Gather(st, req.rpId, req.allowCredentialDescriptorList)[env.selection.value];
    var cred := picked.(signCount := AddUInt(picked.signCount, setting.counterStep));
    AddUIntValue(picked.signCount, setting.counterStep);
    RunSaves(st, req, setting, env);
    SaveEffect(st, cred, ToBase64(cred, env.codecs.jackson, env.codecs.base64));
  }

  lemma SelectedInRange(st: Store, req: GetAssertionRequest, env: Environment)
    requires SelectionInRange(st, req, env) && env.selection.Granted?
    ensures env.selection.value < |Gather(st, req.rpId, req.allowCredentialDescriptorList)|
  {
    hide Gather;
  }

  /** Past the selection, the run's store is the one `save` leaves, and a failed save ends the run with Unknown. */
  lemma RunSaves(st: Store, req: GetAssertionRequest, setting: Setting, env: Environment)
    requires SelectionInRange(st, req, env)
    requires Gather(st, req.rpId, req.allowCredentialDescriptorList) != [] && env.selection.Granted?
    ensures var picked := Gather(st, req.rpId, req.allowCredentialDescriptorList)[env.selection.value];
      var cred := picked.(signCount := AddUInt(picked.signCount, setting.counterStep));
      var saved := Save(st, cred, ToBase64(cred, env.codecs.jackson, env.codecs.base64));
      GetAssertionRun(st, req, setting, env).1 == saved.1 && (!saved.0 ==> GetAssertionRun(st, req, setting, env).0 == Failed(Unknown))
  {
    hide AuthData.ToBytes, AssertionAuthData;
  }

  /**
   * A discovered assertion: the authenticator data has the bumped counter,
   * no attested data, UP = UP or UV and UV = UV; the signature is over the
   * encoded authenticator data followed by the hash; the result carries
   * the credential id iff the allow list does not have exactly one entry,
   * and always the user handle.
   */
  lemma DiscoveredAssertion(st: Store, req: GetAssertionRequest, setting: Setting, env: Environment)
    requires SelectionInRange(st, req, env)
    requires GetAssertionRun(st, req, setting, env).0.Succeeded?
    ensures var d := GetAssertionRun(st, req, setting, env).0.value;
      var sources := Gather(st, req.rpId, req.allowCredentialDescriptorList);
      var picked := sources[env.selection.value];
      env.selection.Granted? && d.credential == picked.(signCount := (picked.signCount + setting.counterStep) % 0x1_0000_0000)
      && d.authData.signCount == d.credential.signCount && d.authData.attestedCredentialData.None?
      && d.authData.userPresent == (req.requireUserPresence || req.requireUserVerification)
      && d.authData.userVerified == req.requireUserVerification
      && d.authData.rpIdHash == env.codecs.sha256(req.rpId)
      && Some(d.assertion.authenticatorData) == AuthData.ToBytes(d.authData, env.codecs.jackson)
      && d.signedData == d.assertion.authenticatorData + req.hash
      && Some(d.assertion.signature) == env.keys.sign(Chosen(env.sdk, [d.credential.alg]).value, KeyLabel(d.credential), d.signedData)
      && (d.assertion.credentialId.Some? <==> |req.allowCredentialDescriptorList| != 1)
      && (d.assertion.credentialId.Some? ==> d.assertion.credentialId.value == picked.id)
      && d.assertion.userHandle == Some(picked.userHandle)
  {
    var sources := Gather(st, req.rpId, req.allowCredentialDescriptorList);
    hide AuthData.ToBytes, Save, ToBase64, Gather, AddUInt, Chosen;
    if sources != [] && env.selection.Granted? {
      AddUIntValue(sources[env.selection.value].signCount, setting.counterStep);
    }
  }

  /** `InternalGetAssertionSession`: the flags, the listener calls and the store it writes. */
  class GetAssertionSession {
    const setting: Setting
    var started: bool
    var stopped: bool
    var events: seq<SessionEvent>
    var store: Store

    function Life(): Lifecycle
      reads this
    {
      Lifecycle(started, stopped, events)
    }

    constructor(setting: Setting, store: Store)
      ensures this.setting == setting && this.store == store && Life() == Initial
    {
      this.setting := setting;
      this.store := store;
      started := false;
      stopped := false;
      events := [];
    }

    /** `canPerformUserVerification()`: what the setting allows. */
    function CanPerformUserVerification(): (r: bool)
      ensures r <==> setting.allowUserVerification
    {
      setting.allowUserVerification
    }

    method Start()
      modifies this
      ensures Life() == StartStep(old(Life())) && store == old(store)
    {
      if stopped {
        return;
      }
      if started {
        return;
      }
      started := true;
      events := events + [Available];
    }

    method Stop(reason: ErrorReason)
      modifies this
      ensures Life() == StopStep(old(Life()), reason) && store == old(store)
    {
      if !started {
        return;
      }
      if stopped {
        return;
      }
      stopped := true;
      events := events + [OperationStopped(reason)];
    }

    method Cancel(reason: ErrorReason, uiOpen: bool)
      modifies this
      ensures Life() == CancelStep(old(Life()), reason, uiOpen) && store == old(store)
    {
      if stopped {
        return;
      }
      if uiOpen {
        events := events + [UiCancelled(reason)];
        return;
      }
      Stop(reason);
    }

    method OnComplete()
      modifies this
      ensures Life() == old(Life()).(stopped := true) && store == old(store)
    {
      stopped := true;
    }

    /** `getAssertion(...)`: the script's store, then `stop` or `onComplete` and `onCredentialDiscovered`. */
    method GetAssertion(req: GetAssertionRequest, env: Environment)
      requires SelectionInRange(store, req, env)
      modifies this
      ensures var (r, st) := GetAssertionRun(old(store), req, setting, env);
        store == st && !r.Crashed?
        && (r.Failed? ==> Life() == StopStep(old(Life()), r.reason))
        && (r.Succeeded? ==> Life() == CompleteStep(old(Life()), CredentialDiscovered(r.value.assertion)))
    {
      var run := GetAssertionRun(store, req, setting, env);
      store := run.1;
      match run.0
      case Failed(reason) =>
        Stop(reason);
      case Succeeded(d) =>
        OnComplete();
        events := events + [CredentialDiscovered(d.assertion)];
    }
  }
}
