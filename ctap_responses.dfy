/**
 * `MakeCredentialResponseBuilder.build` and `GetAssertionResponseBuilder.build`:
 * the CBOR maps the BLE authenticator answers with, written by `CBORWriter`.
 */
module CtapResponses {
  import opened Wrappers
  import opened JvmTypes
  import opened CBORBits
  import opened LinkedMaps
  import opened CBORReading
  import opened CBORWriting
  import opened CBORProperties
  import opened CBORContainers
  import opened WebAuthnData
  import opened AuthData
  import opened Attestation
  import opened Sessions

  /**
   * `Pair(result, null)`, `Pair(null, reason)`, or an `Error` that escapes
   * `catch (e: Exception)`: the writer's `AssertionError`.
   */
  datatype Built = Built(bytes: seq<Byte>) | BuildFailed(reason: ErrorReason) | Escaped

  /** How the `try` around the writer ends: a `ClassCastException` is caught as Unknown, an `AssertionError` is not. */
  function Caught(e: Emitted): (r: Built)
    ensures r.Built? <==> e.fault == NoFault
    ensures r.Built? ==> r.bytes == e.bytes
    ensures r.BuildFailed? <==> e.fault == CastFailure
    ensures r.BuildFailed? ==> r.reason == Unknown
  {
    match e.fault
    case NoFault => Built(e.bytes)
    case CastFailure => BuildFailed(Unknown)
    case AssertionFailure => Escaped
  }

  /** `String.toByteArray()`: UTF-8, left uninterpreted. */
  type Utf8Encoder = string -> seq<Byte>

  const ATT_STMT := Ascii("attStmt")
  const FMT := Ascii("fmt")
  const AUTH_DATA := Ascii("authData")
  const SIGNATURE := Ascii("signature")
  const USER := Ascii("user")
  const ID := Ascii("id")
  const NUMBER_OF_CREDENTIALS := Ascii("numberOfCredentials")
  const CREDENTIAL := Ascii("credential")
  const TYPE := Ascii("type")
  const PUBLIC_KEY := Ascii("public-key")

  /** A byte string as the builder hands it to the writer: `UByteArray` as written, `ByteArray` once converted. */
  function Blob(unsigned: bool, b: seq<Byte>): Value
  {
    if unsigned then UBytes(b) else Bytes(b)
  }

  /** The first fault among the entry values of a map, in insertion order. */
  function FirstFault(entries: seq<(seq<Byte>, Value)>): Fault
  {
    if entries == [] then NoFault
    else if MapValueBytes(entries[0].1).fault != NoFault then MapValueBytes(entries[0].1).fault
    else FirstFault(entries[1..])
  }

  lemma {:induction false} RunFault(entries: seq<(seq<Byte>, Value)>, i: nat)
    requires i <= |entries|
    ensures Run(EntryEncodings(entries), i).fault == FirstFault(entries[i..])
    decreases |entries| - i
  {
    hide Ascii;
    var es := EntryEncodings(entries);
    if i == |entries| {
      RunEnd(es);
      assert entries[i..] == [];
    } else {
      RunStep(es, i);
      RunFault(entries, i + 1);
      assert es[i] == EntryBytes(entries[i].0, entries[i].1);
      assert entries[i..][1..] == entries[i + 1..];
    }
  }

  /** The head of a map with at most 23 entries is the single byte `0xa0 + count`. */
  lemma SmallMapHead(n: nat)
    requires n <= 23
    ensures CountHeader(ToInt(n), MAP_HEADER) == Emitted([MAP_HEADER + n], NoFault)
  {
    assert ToInt(n) == n;
    CountHeaderLayout(n, MAP_HEADER);
    assert HeadLayout(MAP_HEADER, n) == [MAP_HEADER + n];
  }

  lemma StrMapParts(entries: seq<(seq<Byte>, Value)>)
    requires |entries| <= 23
    ensures StrMapBytes(entries) == Emitted([MAP_HEADER + |entries|] + Run(EntryEncodings(entries), 0).bytes, Run(EntryEncodings(entries), 0).fault)
  {
    SmallMapHead(|entries|);
    hide Run, EntryEncodings, CountHeader, ToInt;
  }

  /** `putStringKeyMap` on a small map: the head `0xa0 + count`, then the entries; it throws where the first entry value throws. */
  lemma SmallMapWrite(entries: seq<(seq<Byte>, Value)>)
    requires |entries| <= 23
    ensures StrMapBytes(entries).fault == FirstFault(entries)
    ensures StrMapBytes(entries).bytes[0] == MAP_HEADER + |entries|
  {
    hide *;
    StrMapParts(entries);
    RunFault(entries, 0);
    assert entries[0..] == entries;
  }

  /** The map `MakeCredentialResponseBuilder.build` fills: attStmt, fmt, authData. */
  function MakeCredentialEntries(statement: seq<(seq<Byte>, Value)>, fmt: seq<Byte>, authData: Value): seq<(seq<Byte>, Value)>
  {
    [(ATT_STMT, StrMap(statement)), (FMT, Text(fmt)), (AUTH_DATA, authData)]
  }

  /**
   * `build()`; `statement` is the attestation statement as the writer sees
   * its values' run-time classes. A null `authData.toBytes()` fails the
   * `!!`, which is caught as Unknown.
   */
  function MakeCredentialResponseWith(unsigned: bool, ao: AttestationObject, statement: seq<(seq<Byte>, Value)>, jackson: JacksonCbor, utf8: Utf8Encoder): Built
  {
    match AuthData.ToBytes(ao.authData, jackson)
    case None => BuildFailed(Unknown)
    case Some(b) => Caught(StrMapBytes(MakeCredentialEntries(statement, utf8(ao.fmt), Blob(unsigned, b))))
  }

  /** The builder as written: `toBytes()` gives a `UByteArray`. */
  function MakeCredentialResponse(ao: AttestationObject, statement: seq<(seq<Byte>, Value)>, jackson: JacksonCbor, utf8: Utf8Encoder): (r: Built)
    ensures !r.Built?
    ensures r.BuildFailed? ==> r.reason == Unknown
  {
    MakeCredentialResponseNeverBuilt(ao, statement, jackson, utf8);
    MakeCredentialResponseWith(true, ao, statement, jackson, utf8)
  }

  /** The builder with `toBytes()!!.toByteArray()`. */
  function MakeCredentialResponseFixed(ao: AttestationObject, statement: seq<(seq<Byte>, Value)>, jackson: JacksonCbor, utf8: Utf8Encoder): Built
  {
    MakeCredentialResponseWith(false, ao, statement, jackson, utf8)
  }

  /**
   * As written the builder never produces bytes: `authData` is a
   * `UByteArray`, which no arm of `putStringKeyMap` accepts, so the writer
   * throws `AssertionError`, which is not an `Exception`. Only a null
   * `toBytes()` or a statement value that fails a cast gives Unknown.
   */
  lemma MakeCredentialResponseNeverBuilt(ao: AttestationObject, statement: seq<(seq<Byte>, Value)>, jackson: JacksonCbor, utf8: Utf8Encoder)
    ensures var r := MakeCredentialResponseWith(true, ao, statement, jackson, utf8);
      !r.Built?
      && (r == BuildFailed(Unknown) <==> AuthData.ToBytes(ao.authData, jackson).None? || StrMapBytes(statement).fault == CastFailure)
      && (r.Escaped? <==> AuthData.ToBytes(ao.authData, jackson).Some? && StrMapBytes(statement).fault != CastFailure)
  {
    hide StrMapBytes, ReadStringKeyMapAt, Ascii, Run, EntryEncodings, CountHeader;
    if AuthData.ToBytes(ao.authData, jackson).Some? {
      var entries := MakeCredentialEntries(statement, utf8(ao.fmt), UBytes(AuthData.ToBytes(ao.authData, jackson).value));
      SmallMapWrite(entries);
      assert MapValueBytes(entries[0].1) == StrMapBytes(statement);
      assert MapValueBytes(entries[1].1).fault == NoFault;
      assert MapValueBytes(entries[2].1).fault == AssertionFailure;
      assert entries[1..][0] == entries[1] && entries[1..][1..] == [entries[2]];
      assert FirstFault([entries[2]]) == AssertionFailure;
      assert FirstFault(entries[1..]) == AssertionFailure;
      var f := StrMapBytes(statement).fault;
      assert FirstFault(entries) == (if f != NoFault then f else AssertionFailure);
      assert MakeCredentialResponseWith(true, ao, statement, jackson, utf8) == Caught(StrMapBytes(entries));
    }
  }

  /** The keys of both response maps have pairwise different lengths, so they are distinct. */
  lemma KeyLengths()
    ensures |ATT_STMT| == 7 && |FMT| == 3 && |AUTH_DATA| == 8
    ensures |SIGNATURE| == 9 && |USER| == 4 && |NUMBER_OF_CREDENTIALS| == 19 && |CREDENTIAL| == 10
    ensures |ID| == 2 && |TYPE| == 4
  {
  }

  lemma MakeCredentialEntriesDistinct(statement: seq<(seq<Byte>, Value)>, fmt: seq<Byte>, authData: Value)
    ensures DistinctKeys(MakeCredentialEntries(statement, fmt, authData))
  {
    hide Ascii;
    KeyLengths();
  }

  /**
   * The corrected builder: when the statement is readable and the map fits
   * a JVM array, the result is the map's bytes, which start with `0xa3`
   * (three entries) and read back as attStmt, fmt and authData in that order.
   */
  lemma MakeCredentialResponseFixedReadsBack(ao: AttestationObject, statement: seq<(seq<Byte>, Value)>, jackson: JacksonCbor, utf8: Utf8Encoder)
    requires AuthData.ToBytes(ao.authData, jackson).Some? && EntriesReadable(statement)
    ensures var entries := MakeCredentialEntries(statement, utf8(ao.fmt), Bytes(AuthData.ToBytes(ao.authData, jackson).value));
      var e := StrMapBytes(entries);
      |e.bytes| <= INT_MAX ==>
        && MakeCredentialResponseFixed(ao, statement, jackson, utf8) == Built(e.bytes)
        && e.bytes[0] == 0xa3
        && ReadStringKeyMapAt(State(e.bytes, 0)).0 == Ok(entries)
  {
    hide StrMapBytes, ReadStringKeyMapAt, Ascii, Run, EntryEncodings, CountHeader;
    var b := AuthData.ToBytes(ao.authData, jackson).value;
    var entries := MakeCredentialEntries(statement, utf8(ao.fmt), Bytes(b));
    MakeCredentialEntriesDistinct(statement, utf8(ao.fmt), Bytes(b));
    assert MapReadable(entries[0].1) && MapReadable(entries[1].1) && MapReadable(entries[2].1);
    assert EntriesReadable(entries);
    SmallMapWrite(entries);
    if |StrMapBytes(entries).bytes| <= INT_MAX {
      StrMapRoundTrip(entries);
      assert MakeCredentialResponseFixed(ao, statement, jackson, utf8) == Caught(StrMapBytes(entries));
    }
  }

  /** Without authenticator data bytes both builders answer Unknown. */
  lemma MissingAuthDataUnknown(ao: AttestationObject, statement: seq<(seq<Byte>, Value)>, jackson: JacksonCbor, utf8: Utf8Encoder)
    requires AuthData.ToBytes(ao.authData, jackson).None?
    ensures MakeCredentialResponse(ao, statement, jackson, utf8) == BuildFailed(Unknown)
    ensures MakeCredentialResponseFixed(ao, statement, jackson, utf8) == BuildFailed(Unknown)
  {
    hide Ascii;
  }

  /** The map `GetAssertionResponseBuilder.build` fills, with `credential` only when the allow list does not have one entry. */
  function AssertionEntries(unsigned: bool, a: AssertionResult, allowListSize: Int32): seq<(seq<Byte>, Value)>
    requires a.userHandle.Some? && (allowListSize != 1 ==> a.credentialId.Some?)
  {
    [(AUTH_DATA, Blob(unsigned, a.authenticatorData)),
     (SIGNATURE, Blob(unsigned, a.signature)),
     (USER, StrMap([(ID, Blob(unsigned, a.userHandle.value))])),
     (NUMBER_OF_CREDENTIALS, Number(1))]
    + if allowListSize != 1 then [(CREDENTIAL, StrMap([(TYPE, Text(PUBLIC_KEY)), (ID, Blob(unsigned, a.credentialId.value))]))] else []
  }

  /** `build()`: a null user handle fails its `!!` (caught as Unknown); a missing selected id returns Unknown. */
  function GetAssertionResponseWith(unsigned: bool, a: AssertionResult, allowListSize: Int32): Built
  {
    if a.userHandle.None? then BuildFailed(Unknown)
    else if allowListSize != 1 && a.credentialId.None? then BuildFailed(Unknown)
    else Caught(StrMapBytes(AssertionEntries(unsigned, a, allowListSize)))
  }

  /** The builder as written: every byte string of the result is a `UByteArray`. */
  function GetAssertionResponse(a: AssertionResult, allowListSize: Int32): (r: Built)
    ensures !r.Built?
    ensures r.BuildFailed? ==> r.reason == Unknown
  {
    GetAssertionResponseNeverBuilt(a, allowListSize);
    GetAssertionResponseWith(true, a, allowListSize)
  }

  /** The builder with the byte strings converted by `toByteArray()`. */
  function GetAssertionResponseFixed(a: AssertionResult, allowListSize: Int32): Built
  {
    GetAssertionResponseWith(false, a, allowListSize)
  }

  /** As written the builder never produces bytes: the `UByteArray` authData makes the writer throw `AssertionError`. */
  lemma GetAssertionResponseNeverBuilt(a: AssertionResult, allowListSize: Int32)
    ensures var r := GetAssertionResponseWith(true, a, allowListSize);
      !r.Built?
      && (r == BuildFailed(Unknown) <==> a.userHandle.None? || (allowListSize != 1 && a.credentialId.None?))
      && (r.Escaped? <==> a.userHandle.Some? && (allowListSize != 1 ==> a.credentialId.Some?))
  {
    hide StrMapBytes, ReadStringKeyMapAt, Ascii, Run, EntryEncodings, CountHeader;
    if a.userHandle.Some? && (allowListSize != 1 ==> a.credentialId.Some?) {
      var entries := AssertionEntries(true, a, allowListSize);
      SmallMapWrite(entries);
    }
  }

  /** The corrected map's shape: readable, with numberOfCredentials 1, the user handle, and `credential` iff the allow list does not have one entry. */
  lemma AssertionEntriesShape(a: AssertionResult, allowListSize: Int32)
    requires a.userHandle.Some? && (allowListSize != 1 ==> a.credentialId.Some?)
    ensures var entries := AssertionEntries(false, a, allowListSize);
      && EntriesReadable(entries)
      && |entries| == (if allowListSize != 1 then 5 else 4)
      && Get(entries, NUMBER_OF_CREDENTIALS) == Some(Number(1))
      && Get(entries, USER) == Some(StrMap([(ID, Bytes(a.userHandle.value))]))
      && (HasKey(entries, CREDENTIAL) <==> allowListSize != 1)
  {
    hide Ascii;
    KeyLengths();
    var entries := AssertionEntries(false, a, allowListSize);
    var user := [(ID, Bytes(a.userHandle.value))];
    assert entries[..4] == [(AUTH_DATA, Bytes(a.authenticatorData)), (SIGNATURE, Bytes(a.signature)), (USER, StrMap(user)), (NUMBER_OF_CREDENTIALS, Number(1))];
    assert entries[2] == (USER, StrMap(user));
    assert EntriesReadable(user);
    assert MapReadable(entries[2].1);
    if allowListSize != 1 {
      var credential := [(TYPE, Text(PUBLIC_KEY)), (ID, Bytes(a.credentialId.value))];
      assert entries[4] == (CREDENTIAL, StrMap(credential));
      assert EntriesReadable(credential);
      assert MapReadable(entries[4].1);
    }
    assert DistinctKeys(entries);
    GetAt(entries, 2);
    GetAt(entries, 3);
    if HasKey(entries, CREDENTIAL) {
      var i :| 0 <= i < |entries| && entries[i].0 == CREDENTIAL;
      assert i == 4;
    }
  }

  /** Without the user handle, or without the selected id when one must be sent, both builders answer Unknown. */
  lemma MissingHandleUnknown(a: AssertionResult, allowListSize: Int32)
    requires !(a.userHandle.Some? && (allowListSize != 1 ==> a.credentialId.Some?))
    ensures GetAssertionResponse(a, allowListSize) == BuildFailed(Unknown)
    ensures GetAssertionResponseFixed(a, allowListSize) == BuildFailed(Unknown)
  {
  }

  /**
   * The corrected builder, on a result with the user handle and, for an
   * allow list without one entry, the credential id, and when the map fits
   * a JVM array: it answers the map's bytes, which start with `0xa5` or
   * `0xa4` and read back as the entries (authData, signature, user {id},
   * numberOfCredentials 1 and, iff the allow list does not have one entry,
   * credential {type, id}; see `AssertionEntriesShape`).
   */
  lemma GetAssertionResponseFixedReadsBack(a: AssertionResult, allowListSize: Int32)
    requires a.userHandle.Some? && (allowListSize != 1 ==> a.credentialId.Some?)
    requires |StrMapBytes(AssertionEntries(false, a, allowListSize)).bytes| <= INT_MAX
    ensures var e := StrMapBytes(AssertionEntries(false, a, allowListSize));
      && GetAssertionResponseFixed(a, allowListSize) == Built(e.bytes)
      && e.bytes[0] == (if allowListSize != 1 then 0xa5 else 0xa4)
      && ReadStringKeyMapAt(State(e.bytes, 0)).0 == Ok(AssertionEntries(false, a, allowListSize))
  {
    hide StrMapBytes, ReadStringKeyMapAt, Ascii, Run, EntryEncodings, CountHeader, AssertionEntries, EntriesReadable, FirstFault, MapValueBytes, Get, HasKey;
    var entries := AssertionEntries(false, a, allowListSize);
    AssertionEntriesShape(a, allowListSize);
    SmallMapWrite(entries);
    StrMapRoundTrip(entries);
  }
}
