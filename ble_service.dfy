/**
 * `BleFidoService.kt`: the authenticator side of the FIDO BLE transport.
 * The service is locked to the first device that connects; it reassembles
 * the fragments that device writes to the control point, dispatches the
 * command they form, and answers through notifications, which the model
 * keeps as an appended log of packets. Coroutines and the UI thread run
 * as sequential steps: the end of an operation a request started is its
 * own event, `OnRequestFinished`.
 */
module BleServices {
  import opened Wrappers
  import opened JvmTypes
  import opened WebAuthnData
  import opened BleConstants
  import opened CBORBits
  import opened FrameSplitting
  import opened FrameBuffering
  import CtapConstants
  import CtapOptions
  import CBORWriting
  import CtapResponses
  import Frames
  import ContinuationFrames
  import ClientOperations
  import BleOperations

  /** The initial `maxPacketDataSize`. */
  const DEFAULT_PACKET_DATA_SIZE: Int32 := 20
  /** The largest packet size an MTU change may set. */
  const MTU_LIMIT: Int32 := 400
  /** The timeout the service passes to the operation manager. */
  const REQUEST_TIMEOUT: Long := 60000
  /** The service revision bit field: bit 5, FIDO2, only. */
  const FIDO2_REVISION: Byte := 0x20

  /** `onMtuChanged`: the new packet size is the smaller of the MTU and 400. */
  function ClampMtu(mtu: Int32): (r: Int32)
    ensures r <= MTU_LIMIT && r <= mtu
    ensures r == mtu || r == MTU_LIMIT
  {
    if mtu > MTU_LIMIT then MTU_LIMIT else mtu
  }

  /**
   * Kotlin `sliceArray(first..last)`: empty for an empty range, else
   * `copyOfRange(first, last + 1)`; None where that throws.
   */
  function SliceArray(a: seq<Byte>, first: int, last: int): (r: Option<seq<Byte>>)
    ensures r.Some? ==> |r.value| == (if last < first then 0 else last - first + 1)
    ensures r.None? <==> first <= last && (first < 0 || |a| <= last)
    ensures r.Some? && first <= last ==> 0 <= first && last < |a| && r.value == a[first..last + 1]
  {
    if last < first then Some([])
    else if 0 <= first && last + 1 <= |a| then Some(a[first..last + 1])
    else None
  }

  /** The inclusive range `0..value.size` runs one byte past the end, so that slice always throws. */
  lemma WholeRangeSliceThrows(value: seq<Byte>)
    ensures SliceArray(value, 0, |value|) == None
  {
  }

  /** What the service does with a complete message. */
  datatype Action =
    | NoAction
    | CloseWithError(error: BLEErrorType)
    | CancelOperations
    | StartMakeCredential(params: seq<Byte>)
    | StartGetAssertion(params: seq<Byte>)
    | SendInfo
    | Escapes

  /**
   * The branches of `handleBLEMSG`, given what the slice of the message
   * taken for MakeCredential, GetAssertion and ClientPIN turns out to be.
   */
  function MsgActionWith(value: seq<Byte>, sliced: Option<seq<Byte>>): Action
  {
    if value == [] then CloseWithError(InvalidLen)
    else
      match CtapConstants.CommandFromByte(value[0])
      case None => CloseWithError(InvalidCmd)
      case Some(command) =>
        match command
        case MakeCredential =>
          if |value| < 2 then CloseWithError(InvalidLen)
          else if sliced.None? then Escapes
          else StartMakeCredential(sliced.value)
        case GetAssertion =>
          if |value| < 2 then CloseWithError(InvalidLen)
          else if sliced.None? then Escapes
          else StartGetAssertion(sliced.value)
        case ClientPIN =>
          if |value| < 2 then CloseWithError(InvalidLen)
          else if sliced.None? then Escapes
          else CloseWithError(InvalidCmd)
        case GetNextAssertion => CloseWithError(InvalidCmd)
        case GetInfo => SendInfo
        case Reset => NoAction
  }

  /**
   * `handleBLEMSG` as written: the slice `0..value.size`. No MakeCredential
   * or GetAssertion request ever starts: a message long enough to pass the
   * length check makes the slice throw, and the exception escapes the
   * handler.
   */
  function MsgActionAsWritten(value: seq<Byte>): (a: Action)
    ensures !a.StartMakeCredential? && !a.StartGetAssertion?
    ensures a.Escapes? <==>
      (|value| >= 2 && CtapConstants.CommandFromByte(value[0]) in
        {Some(CtapConstants.MakeCredential), Some(CtapConstants.GetAssertion), Some(CtapConstants.ClientPIN)})
  {
    WholeRangeSliceThrows(value);
    MsgActionWith(value, SliceArray(value, 0, |value|))
  }

  /**
   * The corrected `handleBLEMSG`: the request parameters are the bytes after
   * the command byte. An empty message is InvalidLen and an unknown command
   * byte InvalidCmd; MakeCredential and GetAssertion start with the
   * parameters that follow the command byte exactly when there are any;
   * ClientPIN and GetNextAssertion are InvalidCmd; nothing escapes.
   */
  function MsgAction(value: seq<Byte>): (a: Action)
    ensures !a.Escapes? && !a.CancelOperations?
    ensures value == [] ==> a == CloseWithError(InvalidLen)
    ensures value != [] && CtapConstants.CommandFromByte(value[0]).None? ==> a == CloseWithError(InvalidCmd)
    ensures a.StartMakeCredential? <==> |value| >= 2 && value[0] == CtapConstants.CTAPCommandType.MakeCredential.ToByte()
    ensures a.StartGetAssertion? <==> |value| >= 2 && value[0] == CtapConstants.CTAPCommandType.GetAssertion.ToByte()
    ensures a.StartMakeCredential? || a.StartGetAssertion? ==> [value[0]] + a.params == value && a.params != []
    ensures a == SendInfo <==> value != [] && value[0] == CtapConstants.CTAPCommandType.GetInfo.ToByte()
    ensures a == NoAction <==> value != [] && value[0] == CtapConstants.CTAPCommandType.Reset.ToByte()
    ensures |value| >= 2 && value[0] in {CtapConstants.CTAPCommandType.ClientPIN.ToByte(), CtapConstants.CTAPCommandType.GetNextAssertion.ToByte()} ==> a == CloseWithError(InvalidCmd)
  {
    MsgActionFacts(value);
    MsgActionWith(value, if value == [] then None else Some(value[1..]))
  }

  /** The command bytes a message can start with, and the split after the first byte. */
  lemma MsgActionFacts(value: seq<Byte>)
    ensures value != [] ==> [value[0]] + value[1..] == value
    ensures forall c: CtapConstants.CTAPCommandType :: CtapConstants.CommandFromByte(c.ToByte()) == Some(c)
    ensures value != [] && CtapConstants.CommandFromByte(value[0]).Some? ==> CtapConstants.CommandFromByte(value[0]).value.ToByte() == value[0]
  {
    forall c: CtapConstants.CTAPCommandType
      ensures CtapConstants.CommandFromByte(c.ToByte()) == Some(c)
    {
      CtapConstants.CommandRoundTrip(c, 0);
    }
    if value != [] {
      CtapConstants.CommandRoundTrip(CtapConstants.MakeCredential, value[0]);
      assert [value[0]] + value[1..] == value;
    }
  }

  /** `handleCommand`, given what a MSG command leads to. */
  function CommandActionWith(command: BLECommandType, msg: Action): Action
  {
    match command
    case Cancel => CancelOperations
    case MSG => msg
    case Error => CloseWithError(InvalidCmd)
    case KeepAlive => CloseWithError(InvalidCmd)
    case Ping => NoAction
  }

  /**
   * `handleCommand` as written: what each BLE command the client writes
   * leads to. Cancel cancels the operations, Ping is ignored, and KeepAlive
   * and Error, which only an authenticator sends, close with InvalidCmd; MSG
   * is dispatched on its first byte. No request starts, and the handler
   * throws exactly for a MakeCredential, GetAssertion or ClientPIN message
   * of at least two bytes.
   */
  function CommandAction(command: BLECommandType, data: seq<Byte>): (a: Action)
    ensures a.CancelOperations? <==> command == Cancel
    ensures command in {KeepAlive, Error} ==> a == CloseWithError(InvalidCmd)
    ensures command == Ping ==> a == NoAction
    ensures command == MSG ==> a == MsgActionAsWritten(data)
    ensures !a.StartMakeCredential? && !a.StartGetAssertion?
    ensures a.Escapes? <==>
      (command == MSG && |data| >= 2 && CtapConstants.CommandFromByte(data[0]) in
        {Some(CtapConstants.MakeCredential), Some(CtapConstants.GetAssertion), Some(CtapConstants.ClientPIN)})
  {
    CommandActionWith(command, MsgActionAsWritten(data))
  }

  /**
   * The corrected `handleCommand`, over the corrected `handleBLEMSG`: the
   * same rules for Cancel, Ping, KeepAlive and Error, MSG through the
   * corrected dispatch, and nothing throws.
   */
  function CommandActionFixed(command: BLECommandType, data: seq<Byte>): (a: Action)
    ensures a.CancelOperations? <==> command == Cancel
    ensures command != MSG ==> a == CommandAction(command, data)
    ensures command == MSG ==> a == MsgAction(data)
    ensures !a.Escapes?
  {
    CommandActionWith(command, MsgAction(data))
  }

  /** How a MakeCredential or GetAssertion request is taken. */
  datatype Admission<+T> = Denied(error: BLEErrorType) | ParseThrew | Ignored | Admitted(options: T)

  /**
   * `handleCTAPMakeCredential` / `handleCTAPGetAssertion`: a busy manager
   * first, then the parse error, then an ongoing session.
   */
  function Admit<T>(busy: bool, parsed: CtapOptions.Parsed<T>, inSession: bool): (r: Admission<T>)
    ensures busy ==> r == Denied(Other)
    ensures !busy && parsed.Rejected? ==> r == Denied(parsed.error)
    ensures r.Admitted? <==> !busy && parsed.Accepted? && !inSession
    ensures r.Admitted? ==> r.options == parsed.value
    ensures r.Ignored? <==> !busy && parsed.Accepted? && inSession
  {
    if busy then Denied(Other)
    else match parsed
      case Rejected(error) => Denied(error)
      case Threw => ParseThrew
      case Accepted(options) => if inSession then Ignored else Admitted(options)
  }

  /** `fromByteArray` of the request parameters; a JVM array cannot be longer than `Int.MAX_VALUE`, so a longer one is treated as thrown. */
  function ParseMakeCredential(params: seq<Byte>, decode: CtapOptions.Utf8Decoder): CtapOptions.Parsed<CtapOptions.MakeCredentialOptions>
  {
    if |params| <= INT_MAX then CtapOptions.MakeCredentialOptionsFrom(params, decode) else CtapOptions.Threw
  }

  function ParseGetAssertion(params: seq<Byte>, decode: CtapOptions.Utf8Decoder): CtapOptions.Parsed<CtapOptions.GetAssertionOptions>
  {
    if |params| <= INT_MAX then CtapOptions.GetAssertionOptionsFrom(params, decode) else CtapOptions.Threw
  }

  /** A GetAssertion request the service accepts names no credential, so the operation's allow list fits a JVM `Int`. */
  lemma AdmittedGetAllowsNothing(params: seq<Byte>, decode: CtapOptions.Utf8Decoder)
    requires ParseGetAssertion(params, decode).Accepted?
    ensures ParseGetAssertion(params, decode).value.allowCredential == []
  {
    CtapOptions.AcceptedGetAssertionOptions(params, decode);
  }

  /**
   * The two bytes `closeByBLEError` sends: bits 8 to 15 and 0 to 7 of the
   * error code read through `toUInt()`, that is sign-extended and read
   * as an unsigned 32-bit number. Every error code is below 0x80, so the
   * payload is the code as a big-endian 16-bit number.
   */
  function ErrorPayload(e: BLEErrorType): (r: seq<Byte>)
    ensures r == [0, e.ToByte()]
    ensures Unsigned(r) == e.ToByte()
  {
    var code := e.ToByte();
    assert Signed(code) == code;
    assert code % 0x1_0000_0000 == code && code % 0x1_0000 == code && code / 0x100 == 0 && code % 0x100 == code;
    UnsignedPair(0, code);
    var raw := Signed(e.ToByte()) % 0x1_0000_0000;
    [(raw % 0x1_0000) / 0x100, raw % 0x100]
  }

  lemma UnsignedPair(hi: Byte, lo: Byte)
    ensures Unsigned([hi, lo]) == 0x100 * hi + lo
  {
    assert [hi, lo][..1] == [hi];
    assert [hi] == [] + [hi];
  }

  /** The two bytes the control-point-length read returns: bits 8 to 15 and 0 to 7 of the packet size. */
  function ControlPointLengthBytes(size: Int32): seq<Byte>
  {
    [(size % 0x1_0000) / 0x100, size % 0x100]
  }

  /** A packet size from 0 to 0xffff reads back from the two bytes as a big-endian number. */
  lemma ControlPointLengthReadsBack(size: Int32)
    requires 0 <= size <= 0xffff
    ensures |ControlPointLengthBytes(size)| == 2
    ensures Unsigned(ControlPointLengthBytes(size)) == size
  {
    var b := ControlPointLengthBytes(size);
    UnsignedPair(b[0], b[1]);
  }

  /** The revision write: one byte whose signed value is 0x20. */
  predicate RevisionAccepted(value: seq<Byte>)
  {
    |value| == 1 && Signed(value[0]) == 0x20
  }

  /** The only revision the service takes is FIDO2 alone. */
  lemma RevisionAcceptedRules(value: seq<Byte>)
    ensures RevisionAccepted(value) <==> value == [FIDO2_REVISION]
  {
  }

  /** The `options` map of `handleCTAPGetInfo`. */
  function InfoOptions(): seq<(seq<Byte>, Value)>
  {
    [(Ascii("plat"), Boolean(false)), (Ascii("rk"), Boolean(true)), (Ascii("up"), Boolean(true)), (Ascii("uv"), Boolean(true))]
  }

  /** The map `handleCTAPGetInfo` encodes: the version string, a zero AAGUID and the options. */
  function InfoEntries(): seq<(seq<Byte>, Value)>
  {
    [(Ascii("versions"), Text(Ascii("FIDO_2_0"))),
     (Ascii("aaguid"), Bytes(seq(16, _ => 0))),
     (Ascii("options"), StrMap(InfoOptions()))]
  }

  /** The GetInfo map encodes without throwing, as a map of three entries whose `options` is a map of four. */
  lemma InfoEncodes()
    ensures CBORWriting.StrMapBytes(InfoEntries()).fault == CBORWriting.NoFault
    ensures CBORWriting.StrMapBytes(InfoEntries()).bytes[0] == 0xa3
    ensures CBORWriting.StrMapBytes(InfoOptions()).bytes[0] == 0xa4
  {
    hide Ascii, CBORWriting.StrMapBytes;
    var options := InfoOptions();
    var entries := InfoEntries();
    CtapResponses.SmallMapWrite(options);
    CtapResponses.SmallMapWrite(entries);
    assert entries[2].1 == StrMap(options);
  }

  /** The calls the service makes on its `BleFidoServiceListener`. */
  datatype ListenerEvent = ConnectedTo(address: string) | DisconnectedFrom(address: string) | ServiceClosed

  datatype GattStatus = GattSuccess | GattFailure

  /** The answer to a GATT read: a failure status, or the value written into the response. */
  datatype ReadReply = ReadFailure | ReadValue(value: seq<Byte>)

  /**
   * The fields of the service the handlers change; `peripheral` is whether
   * a peripheral is set, `listening` whether the listener is still set.
   */
  datatype ServiceState = ServiceState(
    lockedByDevice: Option<string>, maxPacketDataSize: Int32, isInSession: bool,
    closed: bool, peripheral: bool, listening: bool,
    events: seq<ListenerEvent>, notifications: seq<seq<Byte>>)

  /** `isLockedBy(address)`. */
  predicate LockedBy(s: ServiceState, address: string)
  {
    s.lockedByDevice.Some? && s.lockedByDevice.value == address
  }

  /** `onConnected(address)`: the first device locks the service. */
  function ConnectState(s: ServiceState, address: string): ServiceState
  {
    if s.lockedByDevice.None? then
      s.(lockedByDevice := Some(address), events := s.events + (if s.listening then [ConnectedTo(address)] else []))
    else s
  }

  /** `close()`: only the first call stops the peripheral and tells and drops the listener. */
  function CloseState(s: ServiceState): ServiceState
  {
    if s.closed then s
    else s.(closed := true, peripheral := false, listening := false, events := s.events + (if s.listening then [ServiceClosed] else []))
  }

  /** `onDisconnected(address)`: the locked device leaving closes the service. */
  function DisconnectState(s: ServiceState, address: string): ServiceState
  {
    if LockedBy(s, address) then CloseState(s.(events := s.events + (if s.listening then [DisconnectedFrom(address)] else [])))
    else s
  }

  /** `onMtuChanged(device, mtu)`. */
  function MtuState(s: ServiceState, address: string, mtu: Int32): ServiceState
  {
    if LockedBy(s, address) then s.(maxPacketDataSize := ClampMtu(mtu)) else s
  }

  /** `sendResultAsNotification` for each packet: `peripheral?.notifyValue` sends nothing once the peripheral is gone. */
  function Notify(s: ServiceState, packets: seq<seq<Byte>>): ServiceState
  {
    if s.peripheral then s.(notifications := s.notifications + packets) else s
  }

  /** Notifying in two rounds is notifying once with both. */
  lemma NotifyAppend(s: ServiceState, a: seq<seq<Byte>>, b: seq<seq<Byte>>)
    ensures Notify(Notify(s, a), b) == Notify(s, a + b)
  {
    if s.peripheral {
      assert s.notifications + a + b == s.notifications + (a + b);
    }
  }

  /** `handleResponse(command, value)`; true where `split` throws. */
  function Respond(s: ServiceState, command: BLECommandType, value: seq<Byte>): (ServiceState, bool)
  {
    match SplitResult(s.maxPacketDataSize, command, value)
    case None => (s, true)
    case Some(f) => (Notify(s, Packets(f)), false)
  }

  /** `closeByBLEError(error)`: the payload as Error frames, then `close()`. */
  function ErrorClose(s: ServiceState, e: BLEErrorType): (ServiceState, bool)
  {
    var (t, escaped) := Respond(s, Error, ErrorPayload(e));
    if escaped then (s, true) else (CloseState(t), false)
  }

  /** `handleCTAPGetInfo()`. */
  function InfoStep(s: ServiceState): (ServiceState, bool)
  {
    var e := CBORWriting.StrMapBytes(InfoEntries());
    if e.fault != CBORWriting.NoFault then (s, true) else Respond(s, MSG, e.bytes)
  }

  /** The service side of a MakeCredential or GetAssertion request, and the options it starts an operation with. */
  function RequestStep<T>(s: ServiceState, busy: bool, parsed: CtapOptions.Parsed<T>): (ServiceState, bool, Option<T>)
  {
    match Admit(busy, parsed, s.isInSession)
    case Denied(error) => var (t, escaped) := ErrorClose(s, error); (t, escaped, None)
    case ParseThrew => (s, true, None)
    case Ignored => (s, false, None)
    case Admitted(options) => (s.(isInSession := true), false, Some(options))
  }

  /** The operation a command starts, if any. */
  datatype Started =
    | NoRequest
    | CreateStarted(create: CtapOptions.MakeCredentialOptions)
    | GetStarted(get: CtapOptions.GetAssertionOptions)

  /** Carrying out an action on the fields of the service; `busy` is whether the manager has an active operation. */
  function ActionStep(s: ServiceState, busy: bool, action: Action, decode: CtapOptions.Utf8Decoder): (r: (ServiceState, bool, Started))
    ensures r.2.CreateStarted? ==>
      && action.StartMakeCredential? && !busy && !s.isInSession
      && ParseMakeCredential(action.params, decode) == CtapOptions.Accepted(r.2.create)
      && r.0 == s.(isInSession := true) && !r.1
    ensures r.2.GetStarted? ==>
      && action.StartGetAssertion? && !busy && !s.isInSession
      && ParseGetAssertion(action.params, decode) == CtapOptions.Accepted(r.2.get)
      && r.0 == s.(isInSession := true) && !r.1
    ensures action.Escapes? ==> r == (s, true, NoRequest)
  {
    match action
    case NoAction => (s, false, NoRequest)
    case CancelOperations => (s, false, NoRequest)
    case Escapes => (s, true, NoRequest)
    case SendInfo => var (t, escaped) := InfoStep(s); (t, escaped, NoRequest)
    case CloseWithError(e) => var (t, escaped) := ErrorClose(s, e); (t, escaped, NoRequest)
    case StartMakeCredential(params) =>
      var (t, escaped, options) := RequestStep(s, busy, ParseMakeCredential(params, decode));
      (t, escaped, if options.Some? then CreateStarted(options.value) else NoRequest)
    case StartGetAssertion(params) =>
      var (t, escaped, options) := RequestStep(s, busy, ParseGetAssertion(params, decode));
      (t, escaped, if options.Some? then GetStarted(options.value) else NoRequest)
  }

  /** `handleCommand(command, data)` on the fields of the service. */
  function CommandStep(s: ServiceState, busy: bool, command: BLECommandType, data: seq<Byte>, decode: CtapOptions.Utf8Decoder): (ServiceState, bool, Started)
  {
    ActionStep(s, busy, CommandAction(command, data), decode)
  }

  /**
   * The rest of the coroutine a request launched, once its operation ends
   * with the response bytes or throws: the bytes are sent, a throw (also
   * one from sending) closes with Other, and the session ends in any case.
   */
  function FinishStep(s: ServiceState, result: Option<seq<Byte>>): (ServiceState, bool)
  {
    var (t, escaped) :=
      if result.Some? then
        var (sent, thrown) := Respond(s, MSG, result.value);
        if thrown then ErrorClose(sent, Other) else (sent, false)
      else ErrorClose(s, Other);
    (t.(isInSession := false), escaped)
  }

  /**
   * The lock is taken by the first device and kept: a later connection
   * changes nothing, and the listener hears of the first one only.
   */
  lemma LockIsSticky(s: ServiceState, a: string, b: string)
    requires s.lockedByDevice.None?
    ensures var t := ConnectState(ConnectState(s, a), b);
      LockedBy(t, a) && t.events == s.events + (if s.listening then [ConnectedTo(a)] else [])
      && t == ConnectState(s, a)
  {
  }

  /** While the service is locked, connections, disconnections and MTU changes of any other device are ignored. */
  lemma OtherDevicesIgnored(s: ServiceState, a: string, b: string, mtu: Int32)
    requires LockedBy(s, a) && b != a
    ensures ConnectState(s, b) == s && DisconnectState(s, b) == s && MtuState(s, b, mtu) == s
  {
  }

  /** Before any connection there is nothing to disconnect. */
  lemma UnlockedIgnoresDisconnect(s: ServiceState, b: string, mtu: Int32)
    requires s.lockedByDevice.None?
    ensures DisconnectState(s, b) == s && MtuState(s, b, mtu) == s
  {
  }

  /** An MTU change of the locked device sets the smaller of the MTU and 400. */
  lemma MtuRules(s: ServiceState, a: string, mtu: Int32)
    requires LockedBy(s, a)
    ensures var t := MtuState(s, a, mtu);
      t.maxPacketDataSize <= MTU_LIMIT && t.maxPacketDataSize <= mtu
      && (mtu <= MTU_LIMIT ==> t.maxPacketDataSize == mtu)
      && t == s.(maxPacketDataSize := t.maxPacketDataSize)
  {
  }

  /**
   * `close()` is idempotent: the first call marks the service closed, drops
   * the peripheral and the listener and reports `onClosed` once; a second
   * call changes nothing.
   */
  lemma CloseIdempotent(s: ServiceState)
    ensures var t := CloseState(s);
      CloseState(t) == t && t.closed && (!s.closed ==> !t.peripheral && !t.listening)
      && t.events == s.events + (if s.listening && !s.closed then [ServiceClosed] else [])
      && t.notifications == s.notifications && t.lockedByDevice == s.lockedByDevice
      && t.maxPacketDataSize == s.maxPacketDataSize && t.isInSession == s.isInSession
  {
  }

  /** Once the service closes, nothing more reaches the client until a new peripheral is started. */
  lemma NothingSentOnceClosed(s: ServiceState, command: BLECommandType, value: seq<Byte>, packets: seq<seq<Byte>>)
    requires !s.closed
    ensures Notify(CloseState(s), packets) == CloseState(s)
    ensures Respond(CloseState(s), command, value).0 == CloseState(s)
  {
    hide SplitResult, Packets;
  }

  /** The locked device disconnecting closes the service after the listener hears of it. */
  lemma DisconnectCloses(s: ServiceState, a: string)
    requires LockedBy(s, a) && !s.closed
    ensures var t := DisconnectState(s, a);
      t.closed && !t.peripheral && !t.listening
      && t.events == s.events + (if s.listening then [DisconnectedFrom(a)] else []) + (if s.listening && !s.closed then [ServiceClosed] else [])
  {
  }

  /**
   * Split and reassembly agree for a response: with packets of at least 3
   * bytes, a message under 256 bytes goes out as packets a cleared frame
   * buffer on the other side puts back together into the same command and
   * message; nothing goes out without a peripheral.
   */
  lemma RespondReassembles(s: ServiceState, command: BLECommandType, value: seq<Byte>)
    requires 3 <= s.maxPacketDataSize && |value| < 0x100
    ensures var r := SplitResult(s.maxPacketDataSize, command, value);
      r.Some? && Respond(s, command, value) == (Notify(s, Packets(r.value)), false)
      && var fed := Feed(Cleared(), Packets(r.value));
      fed.Some? && fed.value.done && fed.value.command == Some(command) && fed.value.data == value
  {
    SplitThenBuffer(s.maxPacketDataSize, command, value);
  }

  /**
   * `closeByBLEError`: with packets of at least 3 bytes, the Error frames
   * carrying the code as two big-endian bytes go out and the service closes;
   * with packets too small for a frame header `split` throws and nothing
   * happens.
   */
  lemma ErrorCloseRules(s: ServiceState, e: BLEErrorType)
    ensures 3 <= s.maxPacketDataSize ==>
      var r := SplitResult(s.maxPacketDataSize, Error, [0, e.ToByte()]);
      r.Some? && ErrorClose(s, e) == (CloseState(Notify(s, Packets(r.value))), false)
      && var fed := Feed(Cleared(), Packets(r.value));
      fed.Some? && fed.value.done && fed.value.command == Some(Error) && fed.value.data == [0, e.ToByte()]
    ensures INT_MIN + 3 <= s.maxPacketDataSize < 3 ==> ErrorClose(s, e) == (s, true)
  {
    if 3 <= s.maxPacketDataSize {
      RespondReassembles(s, Error, [0, e.ToByte()]);
    } else if INT_MIN + 3 <= s.maxPacketDataSize {
      SplitFails(s.maxPacketDataSize, Error, ErrorPayload(e));
    }
  }

  /**
   * A request while an operation is active closes with Other, whatever it
   * carries; a valid one with the manager idle starts an operation and
   * marks the session, unless a session is already going on, in which case
   * nothing at all happens.
   */
  lemma RequestRules<T>(s: ServiceState, busy: bool, parsed: CtapOptions.Parsed<T>)
    ensures busy ==> RequestStep(s, busy, parsed) == (ErrorClose(s, Other).0, ErrorClose(s, Other).1, None)
    ensures !busy && parsed.Rejected? ==> RequestStep(s, busy, parsed) == (ErrorClose(s, parsed.error).0, ErrorClose(s, parsed.error).1, None)
    ensures !busy && parsed.Accepted? && s.isInSession ==> RequestStep(s, busy, parsed) == (s, false, None)
    ensures !busy && parsed.Accepted? && !s.isInSession ==> RequestStep(s, busy, parsed) == (s.(isInSession := true), false, Some(parsed.value))
    ensures parsed.Threw? && !busy ==> RequestStep(s, busy, parsed) == (s, true, None)
  {
    hide ErrorClose;
  }

  /** However the operation ends, the session is over afterwards; a throw closes the service with Other. */
  lemma FinishRules(s: ServiceState, result: Option<seq<Byte>>)
    requires 3 <= s.maxPacketDataSize
    ensures !FinishStep(s, result).0.isInSession && !FinishStep(s, result).1
    ensures result.None? ==> FinishStep(s, result).0 == ErrorClose(s, Other).0.(isInSession := false)
    ensures result.Some? && |result.value| < 0x100 ==> FinishStep(s, result).0 == Respond(s, MSG, result.value).0.(isInSession := false)
  {
    hide SplitResult, Packets, Feed, ErrorClose;
    ErrorCloseRules(s, Other);
    if result.Some? {
      if |result.value| < 0x100 {
        RespondReassembles(s, MSG, result.value);
      } else {
        var (sent, thrown) := Respond(s, MSG, result.value);
        if thrown {
          ErrorCloseRules(sent, Other);
        }
      }
    }
  }

  /** `BleFidoService`: the fields its handlers update, its manager and its frame buffer. */
  class BleFidoService {
    const manager: BleOperations.BleFidoOperationManager
    const frameBuffer: FrameBuffer
    /** UTF-8 decoding of the request parameters. */
    const decode: CtapOptions.Utf8Decoder
    var lockedByDevice: Option<string>
    var maxPacketDataSize: Int32
    var isInSession: bool
    var closed: bool
    var peripheral: bool
    var listening: bool
    var events: seq<ListenerEvent>
    var notifications: seq<seq<Byte>>

    function State(): ServiceState
      reads this
    {
      ServiceState(lockedByDevice, maxPacketDataSize, isInSession, closed, peripheral, listening, events, notifications)
    }

    /** The manager keeps its operations under their ids, the buffer is consistent, packets stay within 400 bytes, and a closed service has no listener. */
    ghost predicate Valid()
      reads this, manager, frameBuffer
    {
      manager.Valid() && frameBuffer.State().Valid() && maxPacketDataSize <= MTU_LIMIT && (closed ==> !listening)
    }

    constructor(makeCredentialSession: ClientOperations.SessionInfo, getAssertionSession: ClientOperations.SessionInfo, decode: CtapOptions.Utf8Decoder, listening: bool)
      ensures Valid() && fresh(manager) && fresh(frameBuffer)
      ensures State() == ServiceState(None, DEFAULT_PACKET_DATA_SIZE, false, false, false, listening, [], [])
      ensures manager.getOperations == map[] && manager.createOperations == map[]
      ensures manager.makeCredentialSession == makeCredentialSession && manager.getAssertionSession == getAssertionSession
      ensures frameBuffer.State() == Cleared() && this.decode == decode
    {
      manager := new BleOperations.BleFidoOperationManager(makeCredentialSession, getAssertionSession);
      frameBuffer := new FrameBuffer();
      this.decode := decode;
      lockedByDevice := None;
      maxPacketDataSize := DEFAULT_PACKET_DATA_SIZE;
      isInSession := false;
      closed := false;
      peripheral := false;
      this.listening := listening;
      events := [];
      notifications := [];
    }

    /** `isLockedBy(deviceAddress)`. */
    function IsLockedBy(address: string): (r: bool)
      reads this
      ensures r <==> LockedBy(State(), address)
    {
      lockedByDevice != None && lockedByDevice.value == address
    }

    /** `start()`: keeps the peripheral iff it starts. */
    method Start(started: bool) returns (r: bool)
      requires Valid()
      modifies this
      ensures Valid() && r == started
      ensures State() == old(State()).(peripheral := started)
    {
      peripheral := true;
      if started {
        r := true;
      } else {
        peripheral := false;
        r := false;
      }
    }

    /** `stop()`. */
    method Stop()
      requires Valid()
      modifies this
      ensures Valid() && State() == CloseState(old(State()))
    {
      Close();
    }

    /** `onAdvertiseFailure`. */
    method OnAdvertiseFailure()
      requires Valid()
      modifies this
      ensures Valid() && State() == CloseState(old(State()))
    {
      Close();
    }

    method OnConnected(address: string)
      requires Valid()
      modifies this
      ensures Valid() && State() == ConnectState(old(State()), address)
    {
      if lockedByDevice == None {
        lockedByDevice := Some(address);
        if listening {
          events := events + [ConnectedTo(address)];
        }
      }
    }

    method OnDisconnected(address: string)
      requires Valid()
      modifies this
      ensures Valid() && State() == DisconnectState(old(State()), address)
    {
      if IsLockedBy(address) {
        if listening {
          events := events + [DisconnectedFrom(address)];
        }
        Close();
      }
    }

    method OnMtuChanged(address: string, mtu: Int32)
      requires Valid()
      modifies this
      ensures Valid() && State() == MtuState(old(State()), address, mtu)
    {
      if IsLockedBy(address) {
        maxPacketDataSize := if mtu > 400 then 400 else mtu;
      }
    }

    method Close()
      requires Valid()
      modifies this
      ensures Valid() && State() == CloseState(old(State()))
    {
      if closed {
        return;
      }
      closed := true;
      peripheral := false;
      if listening {
        events := events + [ServiceClosed];
      }
      listening := false;
    }

    /** `sendResultAsNotification(value)`. */
    method SendNotification(value: seq<Byte>)
      modifies this
      ensures State() == Notify(old(State()), [value])
    {
      if peripheral {
        notifications := notifications + [value];
      }
    }

    /** The first frame, then every continuation frame in order. */
    method SendFragments(f: Fragments)
      modifies this
      ensures State() == Notify(old(State()), Packets(f))
    {
      hide Frames.ToBytes, ContinuationFrames.ToBytes;
      var packets := Packets(f);
      hide Packets;
      for i := 0 to |packets|
        invariant State() == Notify(old(State()), packets[..i])
      {
        SendNotification(packets[i]);
        NotifyAppend(old(State()), packets[..i], [packets[i]]);
        assert packets[..i + 1] == packets[..i] + [packets[i]];
      }
      assert packets[..|packets|] == packets;
    }

    /** `handleResponse(command, value)`: true where `split` throws. */
    method HandleResponse(command: BLECommandType, value: seq<Byte>) returns (escaped: bool)
      requires Valid()
      modifies this
      ensures Valid() && (State(), escaped) == Respond(old(State()), command, value)
    {
      hide SplitResult, Packets;
      var split := SplitResult(maxPacketDataSize, command, value);
      if split.None? {
        return true;
      }
      SendFragments(split.value);
      escaped := false;
    }

    /** `closeByBLEError(error)`. */
    method CloseByBLEError(error: BLEErrorType) returns (escaped: bool)
      requires Valid()
      modifies this
      ensures Valid() && (State(), escaped) == ErrorClose(old(State()), error)
    {
      var raw := Signed(error.ToByte()) % 0x1_0000_0000;
      var b1 := (raw % 0x1_0000) / 0x100;
      var b2 := raw % 0x100;
      hide SplitResult, Packets, Notify, Respond;
      assert [b1, b2] == ErrorPayload(error);
      escaped := HandleResponse(Error, [b1, b2]);
      if !escaped {
        Close();
      }
    }

    /** `handleCTAPMakeCredential(value)`: the operation, when one starts, is registered under `opId`. */
    method HandleMakeCredential(value: seq<Byte>, opId: string) returns (escaped: bool)
      requires Valid()
      modifies this, manager
      ensures Valid()
      ensures var (t, esc, started) := RequestStep(old(State()), old(manager.HasActiveOperation()), ParseMakeCredential(value, decode));
        && State() == t && escaped == esc
        && manager.getOperations == old(manager.getOperations)
        && (started.None? ==> manager.createOperations == old(manager.createOperations))
        && (started.Some? ==>
              opId in manager.createOperations
              && manager.createOperations == old(manager.createOperations)[opId := manager.createOperations[opId]]
              && fresh(manager.createOperations[opId])
              && manager.createOperations[opId].options == started.value
              && manager.createOperations[opId].lifetimeTimer == REQUEST_TIMEOUT
              && manager.createOperations[opId].State() == ClientOperations.OperationStart(ClientOperations.OperationInitial))
    {
      hide ErrorClose, CtapOptions.MakeCredentialOptionsFrom;
      var busy := manager.HasActiveOperation();
      var parsed := ParseMakeCredential(value, decode);
      match Admit(busy, parsed, isInSession)
      case Denied(error) =>
        escaped := CloseByBLEError(error);
      case ParseThrew =>
        escaped := true;
      case Ignored =>
        escaped := false;
      case Admitted(options) =>
        isInSession := true;
        var op := manager.Create(options, REQUEST_TIMEOUT, opId);
        escaped := false;
    }

    /** `handleCTAPGetAssertion(value)`. */
    method HandleGetAssertion(value: seq<Byte>, opId: string) returns (escaped: bool)
      requires Valid()
      modifies this, manager
      ensures Valid()
      ensures var (t, esc, started) := RequestStep(old(State()), old(manager.HasActiveOperation()), ParseGetAssertion(value, decode));
        && State() == t && escaped == esc
        && manager.createOperations == old(manager.createOperations)
        && (started.None? ==> manager.getOperations == old(manager.getOperations))
        && (started.Some? ==>
              opId in manager.getOperations
              && manager.getOperations == old(manager.getOperations)[opId := manager.getOperations[opId]]
              && fresh(manager.getOperations[opId])
              && manager.getOperations[opId].options == started.value
              && manager.getOperations[opId].lifetimeTimer == REQUEST_TIMEOUT
              && manager.getOperations[opId].State() == ClientOperations.OperationStart(ClientOperations.OperationInitial))
    {
      hide ErrorClose, ParseGetAssertion;
      var busy := manager.HasActiveOperation();
      var parsed := ParseGetAssertion(value, decode);
      match Admit(busy, parsed, isInSession)
      case Denied(error) =>
        escaped := CloseByBLEError(error);
      case ParseThrew =>
        escaped := true;
      case Ignored =>
        escaped := false;
      case Admitted(options) =>
        AdmittedGetAllowsNothing(value, decode);
        isInSession := true;
        var op := manager.Get(options, REQUEST_TIMEOUT, opId);
        escaped := false;
    }

    /** `handleCTAPGetInfo()`. */
    method HandleGetInfo() returns (escaped: bool)
      requires Valid()
      modifies this
      ensures Valid() && (State(), escaped) == InfoStep(old(State()))
    {
      hide CBORWriting.StrMapBytes;
      var e := CBORWriting.StrMapBytes(InfoEntries());
      if e.fault != CBORWriting.NoFault {
        return true;
      }
      escaped := HandleResponse(MSG, e.bytes);
    }

    /** `handleBLECancel()`: every registered operation is cancelled with Timeout. */
    method HandleCancel()
      requires Valid()
      modifies manager.getOperations.Values, manager.createOperations.Values
      ensures Valid()
      ensures forall op :: op in manager.getOperations.Values ==> op.State() == ClientOperations.OperationCancel(old(op.State()), Timeout, op.session.transport)
      ensures forall op :: op in manager.createOperations.Values ==> op.State() == ClientOperations.OperationCancel(old(op.State()), Timeout, op.session.transport)
    {
      manager.Cancel();
    }

    /**
     * The manager after a command: a started operation is registered under
     * `opId` and started, nothing else is added or removed.
     */
    twostate predicate StartedAs(started: Started, opId: string)
      reads this, manager, manager.createOperations.Values, manager.getOperations.Values
    {
      && (!started.CreateStarted? ==> manager.createOperations == old(manager.createOperations))
      && (!started.GetStarted? ==> manager.getOperations == old(manager.getOperations))
      && (started.CreateStarted? ==>
            opId in manager.createOperations
            && manager.createOperations == old(manager.createOperations)[opId := manager.createOperations[opId]]
            && fresh(manager.createOperations[opId])
            && manager.createOperations[opId].options == started.create
            && manager.createOperations[opId].lifetimeTimer == REQUEST_TIMEOUT
            && manager.createOperations[opId].State() == ClientOperations.OperationStart(ClientOperations.OperationInitial))
      && (started.GetStarted? ==>
            opId in manager.getOperations
            && manager.getOperations == old(manager.getOperations)[opId := manager.getOperations[opId]]
            && fresh(manager.getOperations[opId])
            && manager.getOperations[opId].options == started.get
            && manager.getOperations[opId].lifetimeTimer == REQUEST_TIMEOUT
            && manager.getOperations[opId].State() == ClientOperations.OperationStart(ClientOperations.OperationInitial))
    }

    /**
     * `handleBLEMSG(value)` as written: a MakeCredential, GetAssertion or
     * ClientPIN message that passes the length check throws at the slice
     * `0..value.size`, before its handler runs.
     */
    method HandleMsg(value: seq<Byte>, opId: string) returns (escaped: bool)
      requires Valid()
      modifies this, manager
      ensures Valid()
      ensures var r := ActionStep(old(State()), old(manager.HasActiveOperation()), MsgActionAsWritten(value), decode);
        State() == r.0 && escaped == r.1 && StartedAs(r.2, opId)
    {
      hide ErrorClose, InfoStep, ParseMakeCredential, ParseGetAssertion;
      if |value| == 0 {
        escaped := CloseByBLEError(InvalidLen);
        return;
      }
      var command := CtapConstants.CommandFromByte(value[0]);
      if command.None? {
        escaped := CloseByBLEError(InvalidCmd);
        return;
      }
      match command.value
      case MakeCredential =>
        if |value| < 2 {
          escaped := CloseByBLEError(InvalidLen);
          return;
        }
        WholeRangeSliceThrows(value);
        escaped := true;
      case GetAssertion =>
        if |value| < 2 {
          escaped := CloseByBLEError(InvalidLen);
          return;
        }
        WholeRangeSliceThrows(value);
        escaped := true;
      case GetNextAssertion =>
        escaped := CloseByBLEError(InvalidCmd);
      case ClientPIN =>
        if |value| < 2 {
          escaped := CloseByBLEError(InvalidLen);
          return;
        }
        WholeRangeSliceThrows(value);
        escaped := true;
      case GetInfo =>
        escaped := HandleGetInfo();
      case Reset =>
        escaped := false;
    }

    /** `handleCommand(command, data)`: only Cancel touches the registered operations. */
    method HandleCommand(command: BLECommandType, data: seq<Byte>, opId: string) returns (escaped: bool)
      requires Valid()
      modifies this, manager, manager.getOperations.Values, manager.createOperations.Values
      ensures Valid()
      ensures var r := CommandStep(old(State()), old(manager.HasActiveOperation()), command, data, decode);
        State() == r.0 && escaped == r.1 && StartedAs(r.2, opId)
      ensures command == Cancel ==>
        (forall op :: op in manager.getOperations.Values ==> op.State() == ClientOperations.OperationCancel(old(op.State()), Timeout, op.session.transport))
        && (forall op :: op in manager.createOperations.Values ==> op.State() == ClientOperations.OperationCancel(old(op.State()), Timeout, op.session.transport))
      ensures command != Cancel ==>
        (forall op :: op in old(manager.getOperations.Values) ==> op.State() == old(op.State()))
        && (forall op :: op in old(manager.createOperations.Values) ==> op.State() == old(op.State()))
    {
      hide ErrorClose, MsgActionAsWritten, InfoStep, RequestStep, ParseMakeCredential, ParseGetAssertion;
      match command
      case Cancel =>
        HandleCancel();
        escaped := false;
      case MSG =>
        escaped := HandleMsg(data, opId);
      case Error =>
        escaped := CloseByBLEError(InvalidCmd);
      case KeepAlive =>
        escaped := CloseByBLEError(InvalidCmd);
      case Ping =>
        escaped := false;
    }

    /**
     * The end of the coroutine a request launched: the response bytes of
     * the operation, or None where the operation threw.
     */
    method OnRequestFinished(result: Option<seq<Byte>>) returns (escaped: bool)
      requires Valid()
      modifies this
      ensures Valid() && (State(), escaped) == FinishStep(old(State()), result)
    {
      hide ErrorClose, Respond;
      if result.Some? {
        var thrown := HandleResponse(MSG, result.value);
        if thrown {
          escaped := CloseByBLEError(Other);
        } else {
          escaped := false;
        }
      } else {
        escaped := CloseByBLEError(Other);
      }
      isInSession := false;
    }

    /**
     * `controlPoint`: a write from a device other than the locked one fails;
     * otherwise the fragment goes into the buffer, a refused one clears it
     * and closes with the error, and a completed message is handled and the
     * buffer cleared, unless handling it throws.
     */
    method ControlPointWrite(address: string, value: seq<Byte>, opId: string) returns (status: GattStatus, escaped: bool)
      requires Valid()
      modifies this, manager, frameBuffer, manager.getOperations.Values, manager.createOperations.Values
      ensures Valid()
      ensures status == (if LockedBy(old(State()), address) then GattSuccess else GattFailure)
      ensures !LockedBy(old(State()), address) ==>
        !escaped && State() == old(State()) && frameBuffer.State() == old(frameBuffer.State())
        && manager.getOperations == old(manager.getOperations) && manager.createOperations == old(manager.createOperations)
      ensures LockedBy(old(State()), address) ==>
        var (err, st) := PutFragmentResult(old(frameBuffer.State()), value);
        && (err.Some? ==> frameBuffer.State() == Cleared() && (State(), escaped) == ErrorClose(old(State()), err.value))
        && (err.None? && !st.done ==> frameBuffer.State() == st && State() == old(State()) && !escaped)
        && (err.None? && st.done ==>
              (st.command.Some? &&
               var r := CommandStep(old(State()), old(manager.HasActiveOperation()), st.command.value, st.data, decode);
               State() == r.0 && escaped == r.1 && frameBuffer.State() == (if r.1 then st else Cleared())))
    {
      hide ErrorClose, CommandStep, PutFragmentResult;
      if !IsLockedBy(address) {
        return GattFailure, false;
      }
      status := GattSuccess;
      ErrorKeepsState(frameBuffer.State(), value);
      var error := frameBuffer.PutFragment(value);
      if error.Some? {
        frameBuffer.Clear();
        escaped := CloseByBLEError(error.value);
        return;
      }
      escaped := false;
      if frameBuffer.IsDone() {
        var command := frameBuffer.GetCommand();
        assert command.Some?;
        var data := frameBuffer.GetData();
        escaped := HandleCommand(command.value, data, opId);
        if !escaped {
          frameBuffer.Clear();
        }
      }
    }

    /** `status`: the characteristic is for notifications only, so a read always fails. */
    method StatusRead() returns (reply: ReadReply)
      ensures reply == ReadFailure
    {
      reply := ReadFailure;
    }

    /** `controlPointLength`: the packet size as two big-endian bytes, for the locked device only. */
    method ControlPointLengthRead(address: string) returns (reply: ReadReply)
      ensures reply.ReadValue? <==> LockedBy(State(), address)
      ensures reply.ReadValue? && 0 <= maxPacketDataSize <= 0xffff ==> |reply.value| == 2 && Unsigned(reply.value) == maxPacketDataSize
    {
      if !IsLockedBy(address) {
        return ReadFailure;
      }
      var size := maxPacketDataSize;
      var b1 := (size % 0x1_0000) / 0x100;
      var b2 := size % 0x100;
      reply := ReadValue([b1, b2]);
      if 0 <= size <= 0xffff {
        ControlPointLengthReadsBack(size);
      }
    }

    /** `serviceRevisionBitFieldWrite`: success iff the locked device writes exactly the FIDO2 bit field. */
    method RevisionWrite(address: string, value: seq<Byte>) returns (status: GattStatus)
      ensures status == GattSuccess <==> LockedBy(State(), address) && value == [FIDO2_REVISION]
    {
      if !IsLockedBy(address) {
        return GattFailure;
      }
      RevisionAcceptedRules(value);
      if |value| == 1 && Signed(value[0]) == 0x20 {
        status := GattSuccess;
      } else {
        status := GattFailure;
      }
    }

    /** `serviceRevisionBitFieldRead`: the FIDO2 bit field, for the locked device only. */
    method RevisionRead(address: string) returns (reply: ReadReply)
      ensures reply == (if LockedBy(State(), address) then ReadValue([FIDO2_REVISION]) else ReadFailure)
    {
      if !IsLockedBy(address) {
        return ReadFailure;
      }
      reply := ReadValue([0x20]);
    }
  }
}
