/**
 * `client/WebAuthnClient.kt`: the entry point of the library. It builds the
 * client data, bounds the lifetime timer, picks the relying party id, starts
 * an operation and keeps it registered until the operation reports its end.
 */
module WebAuthnClients {
  import opened Wrappers
  import opened JvmTypes
  import opened WebAuthnData
  import opened ClientOperations

  /** The initial values of `defaultTimeout`, `minTimeout` and `maxTimeout`, in seconds. */
  const DEFAULT_TIMEOUT: Long := 60
  const MIN_TIMEOUT: Long := 15
  const MAX_TIMEOUT: Long := 120

  /** `adjustLifetimeTimer`: no timeout gives the default; any other is raised to the minimum, else lowered to the maximum. */
  function AdjustLifetimeTimer(timeout: Option<Long>, defaultTimeout: Long, minTimeout: Long, maxTimeout: Long): Long
  {
    match timeout
    case None => defaultTimeout
    case Some(t) =>
      if t < minTimeout then minTimeout
      else if t > maxTimeout then maxTimeout
      else t
  }

  /**
   * With ordered bounds, a requested timeout ends up within them, is kept
   * exactly when it already was, and adjusting twice changes nothing more.
   * With crossed bounds the minimum wins below it and the maximum above it.
   */
  lemma LifetimeTimerBounds(timeout: Option<Long>, defaultTimeout: Long, minTimeout: Long, maxTimeout: Long)
    ensures timeout.None? ==> AdjustLifetimeTimer(timeout, defaultTimeout, minTimeout, maxTimeout) == defaultTimeout
    ensures minTimeout <= maxTimeout && timeout.Some? ==>
      var r := AdjustLifetimeTimer(timeout, defaultTimeout, minTimeout, maxTimeout);
      && minTimeout <= r <= maxTimeout
      && (r == timeout.value <==> minTimeout <= timeout.value <= maxTimeout)
      && AdjustLifetimeTimer(Some(r), defaultTimeout, minTimeout, maxTimeout) == r
    ensures minTimeout > maxTimeout && timeout.Some? && timeout.value < minTimeout ==>
      AdjustLifetimeTimer(timeout, defaultTimeout, minTimeout, maxTimeout) == minTimeout
  {
  }

  /** With the initial settings every lifetime is between 15 and 120 seconds, 60 when none is asked for. */
  lemma DefaultLifetimes(timeout: Option<Long>)
    ensures MIN_TIMEOUT <= AdjustLifetimeTimer(timeout, DEFAULT_TIMEOUT, MIN_TIMEOUT, MAX_TIMEOUT) <= MAX_TIMEOUT
    ensures timeout.None? ==> AdjustLifetimeTimer(timeout, DEFAULT_TIMEOUT, MIN_TIMEOUT, MAX_TIMEOUT) == 60
  {
    LifetimeTimerBounds(timeout, DEFAULT_TIMEOUT, MIN_TIMEOUT, MAX_TIMEOUT);
  }

  /** `pickRelyingPartyID`: the given id, or the client's origin. */
  function PickRelyingPartyId(rpId: Option<string>, origin: string): (r: string)
    ensures rpId.Some? ==> r == rpId.value
    ensures rpId.None? ==> r == origin
  {
    match rpId
    case Some(id) => id
    case None => origin
  }

  /** `CollectedClientDataType`. */
  datatype ClientDataType = CreateClientData | GetClientData

  /** Its `toString()`. */
  function ClientDataTypeName(t: ClientDataType): string
  {
    match t
    case CreateClientData => "webauthn.create"
    case GetClientData => "webauthn.get"
  }

  /** `ObjectMapper().writeValueAsString` with nulls left out. */
  type JsonEncoder = CollectedClientData -> string

  /** The triple `generateClientData` returns. */
  datatype ClientData = ClientData(data: CollectedClientData, json: string, hash: seq<Byte>)

  /** `generateClientData`: the type, the challenge in Base64URL and the origin; the JSON of that; its SHA-256. */
  function GenerateClientData(t: ClientDataType, challenge: seq<Byte>, origin: string, encode: JsonEncoder, base64: Base64Url, sha256: Sha256): ClientData
  {
    var data := CollectedClientData(ClientDataTypeName(t), base64(challenge), origin);
    var json := encode(data);
    ClientData(data, json, sha256(json))
  }

  /**
   * The client data of a `create` never equals that of a `get`: only the
   * type tells them apart, and it always does. Both carry the client's
   * origin and the challenge as Base64URL text, and the hash is that of the
   * JSON handed to the caller.
   */
  lemma ClientDataSeparatesCeremonies(challenge: seq<Byte>, origin: string, encode: JsonEncoder, base64: Base64Url, sha256: Sha256)
    ensures var c := GenerateClientData(CreateClientData, challenge, origin, encode, base64, sha256);
      var g := GenerateClientData(GetClientData, challenge, origin, encode, base64, sha256);
      && c.data != g.data
      && c.data.clientDataType == "webauthn.create" && g.data.clientDataType == "webauthn.get"
      && c.data.origin == origin && g.data.origin == origin
      && c.data.challenge == base64(challenge) && g.data.challenge == base64(challenge)
      && c.hash == sha256(c.json) && g.hash == sha256(g.json)
  {
    assert "webauthn.create"[9] != "webauthn.get"[9];
  }

  /** `WebAuthnClient`: the authenticator is represented by the sessions it hands out. */
  class WebAuthnClient {
    const origin: string
    const makeCredentialSession: SessionInfo
    const getAssertionSession: SessionInfo
    var defaultTimeout: Long
    var minTimeout: Long
    var maxTimeout: Long
    var getOperations: map<string, GetOperation>
    var createOperations: map<string, CreateOperation>

    /** Every operation is registered under its own id. */
    ghost predicate Valid()
      reads this
    {
      && (forall id :: id in getOperations ==> getOperations[id].opId == id)
      && (forall id :: id in createOperations ==> createOperations[id].opId == id)
    }

    constructor(origin: string, makeCredentialSession: SessionInfo, getAssertionSession: SessionInfo)
      ensures this.origin == origin && this.makeCredentialSession == makeCredentialSession && this.getAssertionSession == getAssertionSession
      ensures defaultTimeout == DEFAULT_TIMEOUT && minTimeout == MIN_TIMEOUT && maxTimeout == MAX_TIMEOUT
      ensures getOperations == map[] && createOperations == map[]
      ensures Valid()
    {
      this.origin := origin;
      this.makeCredentialSession := makeCredentialSession;
      this.getAssertionSession := getAssertionSession;
      defaultTimeout := DEFAULT_TIMEOUT;
      minTimeout := MIN_TIMEOUT;
      maxTimeout := MAX_TIMEOUT;
      getOperations := map[];
      createOperations := map[];
    }

    /** `get(options)`: a new operation, registered under `opId` and then started. */
    method Get(options: PublicKeyCredentialRequestOptions, opId: string, encode: JsonEncoder, base64: Base64Url, sha256: Sha256)
      returns (op: GetOperation)
      requires Valid()
      modifies this
      ensures Valid()
      ensures fresh(op)
      ensures getOperations == old(getOperations)[opId := op] && createOperations == old(createOperations)
      ensures defaultTimeout == old(defaultTimeout) && minTimeout == old(minTimeout) && maxTimeout == old(maxTimeout)
      ensures var cd := GenerateClientData(GetClientData, options.challenge, origin, encode, base64, sha256);
        && op.options == options && op.opId == opId && op.session == getAssertionSession
        && op.rpId == PickRelyingPartyId(options.rpId, origin)
        && op.lifetimeTimer == AdjustLifetimeTimer(options.timeout, defaultTimeout, minTimeout, maxTimeout)
        && op.clientDataJSON == cd.json && op.clientDataHash == cd.hash
      ensures op.State() == GetStart(GetInitial)
    {
      var timer := AdjustLifetimeTimer(options.timeout, defaultTimeout, minTimeout, maxTimeout);
      var rpId := PickRelyingPartyId(options.rpId, origin);
      var cd := GenerateClientData(GetClientData, options.challenge, origin, encode, base64, sha256);
      op := new GetOperation(options, rpId, cd.json, cd.hash, timer, opId, getAssertionSession);
      getOperations := getOperations[op.opId := op];
      op.Start();
    }

    /** `create(options)`. */
    method Create(options: PublicKeyCredentialCreationOptions, opId: string, encode: JsonEncoder, base64: Base64Url, sha256: Sha256)
      returns (op: CreateOperation)
      requires Valid()
      modifies this
      ensures Valid()
      ensures fresh(op)
      ensures createOperations == old(createOperations)[opId := op] && getOperations == old(getOperations)
      ensures defaultTimeout == old(defaultTimeout) && minTimeout == old(minTimeout) && maxTimeout == old(maxTimeout)
      ensures var cd := GenerateClientData(CreateClientData, options.challenge, origin, encode, base64, sha256);
        && op.options == options && op.opId == opId && op.session == makeCredentialSession
        && op.rpId == PickRelyingPartyId(options.rp.id, origin)
        && op.lifetimeTimer == AdjustLifetimeTimer(options.timeout, defaultTimeout, minTimeout, maxTimeout)
        && op.clientDataJSON == cd.json && op.clientDataHash == cd.hash
      ensures op.State() == OperationStart(OperationInitial)
    {
      var timer := AdjustLifetimeTimer(options.timeout, defaultTimeout, minTimeout, maxTimeout);
      var rpId := PickRelyingPartyId(options.rp.id, origin);
      var cd := GenerateClientData(CreateClientData, options.challenge, origin, encode, base64, sha256);
      op := new CreateOperation(options, rpId, cd.json, cd.hash, timer, opId, makeCredentialSession);
      createOperations := createOperations[op.opId := op];
      op.Start();
    }

    /**
     * `cancel()`: every registered operation is asked to cancel. A get
     * operation ignores it; a create operation gets the default reason,
     * Timeout.
     */
    method Cancel()
      requires Valid()
      modifies createOperations.Values
      ensures forall op :: op in createOperations.Values ==> op.State() == OperationCancel(old(op.State()), Timeout, op.session.transport)
      ensures forall op :: op in getOperations.Values ==> op.State() == old(op.State())
    {
      var gets := getOperations.Values;
      while gets != {}
        invariant gets <= getOperations.Values
        invariant forall op :: op in createOperations.Values ==> op.State() == old(op.State())
        decreases gets
      {
        var op :| op in gets;
        op.Cancel();
        gets := gets - {op};
      }
      var todo := createOperations.Values;
      while todo != {}
        invariant todo <= createOperations.Values
        invariant forall op :: op in createOperations.Values && op in todo ==> op.State() == old(op.State())
        invariant forall op :: op in createOperations.Values && op !in todo ==> op.State() == OperationCancel(old(op.State()), Timeout, op.session.transport)
        decreases todo
      {
        var op :| op in todo;
        op.Cancel(Timeout);
        todo := todo - {op};
      }
    }

    /** `onFinish(opType, opId)`: only that id leaves the registry of its type. */
    method OnFinish(opType: OperationType, opId: string)
      requires Valid()
      modifies this
      ensures Valid()
      ensures opType == GetOperationType ==> getOperations == old(getOperations) - {opId} && createOperations == old(createOperations)
      ensures opType == CreateOperationType ==> createOperations == old(createOperations) - {opId} && getOperations == old(getOperations)
      ensures defaultTimeout == old(defaultTimeout) && minTimeout == old(minTimeout) && maxTimeout == old(maxTimeout)
    {
      match opType
      case GetOperationType =>
        if opId in getOperations {
          getOperations := getOperations - {opId};
        }
      case CreateOperationType =>
        if opId in createOperations {
          createOperations := createOperations - {opId};
        }
    }
  }

  /** A `create` followed by its end leaves the registries as they were, when the id was new. */
  method CreateThenFinish(client: WebAuthnClient, options: PublicKeyCredentialCreationOptions, opId: string,
                          encode: JsonEncoder, base64: Base64Url, sha256: Sha256)
    requires client.Valid() && opId !in client.createOperations
    modifies client
    ensures client.Valid()
    ensures client.createOperations == old(client.createOperations) && client.getOperations == old(client.getOperations)
  {
    var op := client.Create(options, opId, encode, base64, sha256);
    client.OnFinish(CreateOperationType, opId);
    assert client.createOperations == old(client.createOperations)[opId := op] - {opId};
  }
}
