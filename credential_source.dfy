/** `CredentialSource.kt`: a stored credential and the names derived from it. */
module CredentialSources {
  import opened Wrappers
  import opened JvmTypes
  import opened WebAuthnData
  import opened ByteArrays

  /**
   * `PublicKeyCredentialSource`. Only `signCount` is declared `var`; it is
   * the one field a caller changes, so the update is `s.(signCount := ...)`.
   */
  datatype Source = Source(signCount: UInt, id: seq<Byte>, rpId: string, userHandle: seq<Byte>, alg: Int32, otherUI: string)

  /** `idHex`: the store's primary key. */
  function IdHex(s: Source): string
  {
    Hex(s.id)
  }

  /** `keyLabel`: the key store alias, the relying party and the user handle in hexadecimal. */
  function KeyLabel(s: Source): string
  {
    s.rpId + "/" + Hex(s.userHandle)
  }

  /** `toHex` is injective, because `fromHex` undoes it. */
  lemma HexInjective(a: seq<Byte>, b: seq<Byte>)
    ensures Hex(a) == Hex(b) <==> a == b
  {
    if Hex(a) == Hex(b) {
      FromHexToHex(a);
      FromHexToHex(b);
    }
  }

  /** Two sources share a primary key iff their ids are equal. */
  lemma IdHexIdentifies(s: Source, t: Source)
    ensures IdHex(s) == IdHex(t) <==> s.id == t.id
  {
    HexInjective(s.id, t.id);
  }

  /**
   * The key label depends on the relying party and user handle alone:
   * sources with the same pair share it, whatever their ids; for one
   * relying party it tells the user handles apart.
   */
  lemma KeyLabelShared(s: Source, t: Source)
    ensures s.rpId == t.rpId && s.userHandle == t.userHandle ==> KeyLabel(s) == KeyLabel(t)
    ensures s.rpId == t.rpId && KeyLabel(s) == KeyLabel(t) ==> s.userHandle == t.userHandle
  {
    if s.rpId == t.rpId && KeyLabel(s) == KeyLabel(t) {
      var p := s.rpId + "/";
      assert KeyLabel(s) == p + Hex(s.userHandle) && KeyLabel(t) == p + Hex(t.userHandle);
      assert Hex(s.userHandle) == KeyLabel(s)[|p|..];
      assert Hex(t.userHandle) == KeyLabel(t)[|p|..];
      HexInjective(s.userHandle, t.userHandle);
    }
  }

  /** The map `toCBOR()` hands to Jackson. */
  function CborMap(s: Source): seq<(string, Any)>
  {
    [("id", AnyBytes(s.id)), ("rpId", AnyText(s.rpId)), ("userHandle", AnyBytes(s.userHandle)),
     ("alg", AnyInt(s.alg)), ("signCount", AnyInt(s.signCount)), ("otherUI", AnyText(s.otherUI))]
  }

  /** `toCBOR()`: None where Jackson throws. */
  function ToCbor(s: Source, jackson: JacksonCbor): Option<seq<Byte>>
  {
    jackson(AnyStrMap(CborMap(s)))
  }

  /** `toBase64()`: the URL-safe Base64 of the CBOR form, None when there is none. */
  function ToBase64(s: Source, jackson: JacksonCbor, base64: Base64Url): (r: Option<string>)
    ensures r.None? <==> ToCbor(s, jackson).None?
    ensures r.Some? ==> r.value == base64(ToCbor(s, jackson).value)
  {
    match ToCbor(s, jackson)
    case None => None
    case Some(cbor) => Some(base64(cbor))
  }

  /** Bumping the counter changes nothing else, and so keeps both derived names. */
  lemma SignCountOnlyMutable(s: Source, n: UInt)
    ensures var t := s.(signCount := n);
      t.signCount == n && t.id == s.id && t.rpId == s.rpId && t.userHandle == s.userHandle
      && t.alg == s.alg && t.otherUI == s.otherUI && IdHex(t) == IdHex(s) && KeyLabel(t) == KeyLabel(s)
  {
  }
}

/**
 * The credential store the sessions read and write, with the SQLite table
 * as a list of rows ordered like `ORDER BY on_update DESC`: most recently
 * saved first. A row is keyed by the hexadecimal credential id.
 */
module CredentialStores {
  import opened Wrappers
  import opened JvmTypes
  import opened WebAuthnData
  import opened ByteArrays
  import opened CredentialSources

  datatype Store = Store(rows: seq<Source>)

  /** No two rows share a primary key. */
  ghost predicate Valid(st: Store)
  {
    forall i, j :: 0 <= i < j < |st.rows| ==> IdHex(st.rows[i]) != IdHex(st.rows[j])
  }

  /** `loadAllCredentialSources(rpId)`: the relying party's rows in store order. */
  function LoadAll(st: Store, rpId: string): (r: seq<Source>)
    ensures forall s :: s in r <==> s in st.rows && s.rpId == rpId
    ensures |r| <= |st.rows|
    decreases |st.rows|
  {
    if st.rows == [] then []
    else
      var rest := LoadAll(Store(st.rows[1..]), rpId);
      assert forall s :: s in st.rows <==> s == st.rows[0] || s in st.rows[1..];
      if st.rows[0].rpId == rpId then [st.rows[0]] + rest else rest
  }

  /** `loadAllCredentialSources(rpId, userHandle)`: those of the relying party's rows that belong to the user. */
  function LoadAllFor(st: Store, rpId: string, userHandle: seq<Byte>): (r: seq<Source>)
    ensures forall s :: s in r <==> s in st.rows && s.rpId == rpId && s.userHandle == userHandle
  {
    Filter(LoadAll(st, rpId), userHandle)
  }

  /** The `filter { ByteArrayUtil.equals(it.userHandle, userHandle) }` step. */
  function Filter(ss: seq<Source>, userHandle: seq<Byte>): (r: seq<Source>)
    ensures forall s :: s in r <==> s in ss && s.userHandle == userHandle
    decreases |ss|
  {
    if ss == [] then []
    else
      var rest := Filter(ss[1..], userHandle);
      assert forall s :: s in ss <==> s == ss[0] || s in ss[1..];
      if ss[0].userHandle == userHandle then [ss[0]] + rest else rest
  }

  /** The rows left after deleting every row whose key is in `keys`. */
  function DeleteKeys(rows: seq<Source>, keys: set<string>): (r: seq<Source>)
    ensures forall s :: s in r <==> s in rows && IdHex(s) !in keys
    ensures |r| <= |rows|
    decreases |rows|
  {
    if rows == [] then []
    else
      var rest := DeleteKeys(rows[1..], keys);
      assert forall s :: s in rows <==> s == rows[0] || s in rows[1..];
      if IdHex(rows[0]) in keys then rest else [rows[0]] + rest
  }

  /** The keys of a list of sources. */
  function KeysOf(ss: seq<Source>): (r: set<string>)
    ensures forall s :: s in ss ==> IdHex(s) in r
    ensures forall k :: k in r ==> exists s :: s in ss && IdHex(s) == k
  {
    set s | s in ss :: IdHex(s)
  }

  /** `deleteAllCredentialSources(rpId, userHandle)`: `db.delete(toHex(id))` for each such row. */
  function DeleteAllFor(st: Store, rpId: string, userHandle: seq<Byte>): (r: Store)
  {
    Store(DeleteKeys(st.rows, KeysOf(LoadAllFor(st, rpId, userHandle))))
  }

  /** Afterwards no row of that user at that relying party is left, and every other row stays, in order. */
  lemma DeleteAllForEffect(st: Store, rpId: string, userHandle: seq<Byte>)
    requires Valid(st)
    ensures forall s :: s in DeleteAllFor(st, rpId, userHandle).rows <==> s in st.rows && !(s.rpId == rpId && s.userHandle == userHandle)
    ensures Valid(DeleteAllFor(st, rpId, userHandle))
  {
    var keys := KeysOf(LoadAllFor(st, rpId, userHandle));
    forall s | s in st.rows
      ensures IdHex(s) in keys <==> s.rpId == rpId && s.userHandle == userHandle
    {
      if IdHex(s) in keys {
        var t :| t in LoadAllFor(st, rpId, userHandle) && IdHex(t) == IdHex(s);
        SameKeySameRow(st, s, t);
      }
    }
    DeleteKeysValid(st.rows, keys);
  }

  /** In a valid store a key names one row. */
  lemma SameKeySameRow(st: Store, s: Source, t: Source)
    requires Valid(st) && s in st.rows && t in st.rows && IdHex(s) == IdHex(t)
    ensures s == t
  {
    var i :| 0 <= i < |st.rows| && st.rows[i] == s;
    var j :| 0 <= j < |st.rows| && st.rows[j] == t;
    assert !(i < j) && !(j < i);
  }

  lemma {:induction false} DeleteKeysValid(rows: seq<Source>, keys: set<string>)
    requires Valid(Store(rows))
    ensures Valid(Store(DeleteKeys(rows, keys)))
    decreases |rows|
  {
    if rows != [] {
      assert Valid(Store(rows[1..])) by {
        forall i, j | 0 <= i < j < |rows[1..]|
          ensures IdHex(rows[1..][i]) != IdHex(rows[1..][j])
        {
          assert rows[1..][i] == rows[i + 1] && rows[1..][j] == rows[j + 1];
        }
      }
      DeleteKeysValid(rows[1..], keys);
      var rest := DeleteKeys(rows[1..], keys);
      if IdHex(rows[0]) !in keys {
        forall t | t in rest
          ensures IdHex(t) != IdHex(rows[0])
        {
          var j :| 0 <= j < |rows[1..]| && rows[1..][j] == t;
          assert rows[j + 1] == t;
        }
        ConsValid(rows[0], rest);
      }
    }
  }

  /** Prepending a row whose key no other row has keeps the keys distinct. */
  lemma ConsValid(s: Source, rest: seq<Source>)
    requires Valid(Store(rest))
    requires forall t :: t in rest ==> IdHex(t) != IdHex(s)
    ensures Valid(Store([s] + rest))
  {
    var rows := [s] + rest;
    forall i, j | 0 <= i < j < |rows|
      ensures IdHex(rows[i]) != IdHex(rows[j])
    {
      if i == 0 {
        assert rows[j] in rest;
      } else {
        assert rows[i] == rest[i - 1] && rows[j] == rest[j - 1];
      }
    }
  }

  /** `lookupCredentialSource(credentialId)`: the row under `toHex(credentialId)`. */
  function Lookup(st: Store, credentialId: seq<Byte>): (r: Option<Source>)
    ensures r.Some? ==> r.value in st.rows && r.value.id == credentialId
    ensures r.None? <==> forall s :: s in st.rows ==> s.id != credentialId
    decreases |st.rows|
  {
    if st.rows == [] then None
    else if Hex(st.rows[0].id) == Hex(credentialId) then
      HexInjective(st.rows[0].id, credentialId);
      Some(st.rows[0])
    else
      HexInjective(st.rows[0].id, credentialId);
      assert forall s :: s in st.rows <==> s == st.rows[0] || s in st.rows[1..];
      Lookup(Store(st.rows[1..]), credentialId)
  }

  /**
   * `saveCredentialSource(source)`: false, with nothing written, when the
   * source has no Base64 form; otherwise `INSERT ... ON CONFLICT REPLACE`
   * under its key, which makes it the most recent row.
   */
  function Save(st: Store, s: Source, content: Option<string>): (r: (bool, Store))
  {
    if content.None? then (false, st)
    else (true, Store([s] + DeleteKeys(st.rows, {IdHex(s)})))
  }

  /** A save that succeeds makes the source the one row under its id, keeps the keys distinct, and keeps every row with another id. */
  lemma SaveEffect(st: Store, s: Source, content: Option<string>)
    requires Valid(st)
    ensures Save(st, s, content).0 <==> content.Some?
    ensures !Save(st, s, content).0 ==> Save(st, s, content).1 == st
    ensures var st' := Save(st, s, content).1;
      Valid(st') && (content.Some? ==> Lookup(st', s.id) == Some(s))
      && (content.Some? ==> forall t: Source :: t.id != s.id ==> (t in st'.rows <==> t in st.rows))
  {
    if content.Some? {
      var rest := DeleteKeys(st.rows, {IdHex(s)});
      DeleteKeysValid(st.rows, {IdHex(s)});
      ConsValid(s, rest);
      forall t: Source
        ensures t.id != s.id ==> (t in [s] + rest <==> t in st.rows)
      {
        IdHexIdentifies(s, t);
      }
    }
  }
}
