/**
 * Round trips of `CBORUtil.kt` for containers: `readArray` inverts
 * `putArray`, `readStringKeyMap` inverts `putStringKeyMap` (nested maps
 * and arrays included) and `readIntKeyMap` inverts `putIntKeyMap`, for
 * element values `readAny` gives back unchanged and keys that are
 * pairwise distinct. Collection sizes are JVM `Int`s.
 */
module CBORContainers {
  import opened Wrappers
  import opened JvmTypes
  import opened CBORBits
  import opened LinkedMaps
  import opened CBORReading
  import opened CBORWriting
  import opened CBORProperties

  /** Runs of calls that do not throw concatenate. */
  lemma ThenClean(a: Emitted, b: Emitted)
    requires a.fault == NoFault
    ensures Then(a, b) == Emitted(a.bytes + b.bytes, b.fault)
  {
  }

  lemma RunStep(es: seq<Emitted>, i: nat)
    requires i < |es|
    ensures Run(es, i) == Then(es[i], Run(es, i + 1))
  {
  }

  lemma RunEnd(es: seq<Emitted>)
    ensures Run(es, |es|) == Clean([])
  {
  }

  lemma ReadAnyValid(st: State)
    requires st.Valid()
    ensures ReadAnyAt(st).1.Valid()
  {
  }

  /** What `putArray` and `putStringKeyMap` write for a readable scalar. */
  lemma ScalarClean(v: Value)
    requires Readable(v)
    ensures ScalarOrFail(v) == Clean(ScalarBytes(v).value) && MapValueBytes(v) == ScalarOrFail(v)
  {
  }

  /**
   * The opening of `readArray` / `readStringKeyMap` / `readIntKeyMap` on
   * what `putArray` / `putStringKeyMap` / `putIntKeyMap` wrote: the head
   * gives the count back and leaves the cursor on the first element; the
   * initial byte is one `readAny` sends to the container reader.
   */
  lemma ContainerHead(major: Byte, n: nat, r: Emitted, st: State, tail: seq<Byte>) returns (st2: State)
    requires (major == ARRAY_HEADER || major == MAP_HEADER) && n <= INT_MAX
    requires st.Valid() && Rest(st) == Then(CountHeader(ToInt(n), major), r).bytes + tail
    ensures Then(CountHeader(ToInt(n), major), r).fault == r.fault
    ensures st.cursor < |st.bytes| && st.bytes[st.cursor] < major + 28 && HeaderOf(st.bytes[st.cursor]) == major
    ensures st2.Valid() && CountAt(st, major) == (Ok(n), st2) && Rest(st2) == r.bytes + tail
  {
    assert ToInt(n) == n;
    CountHeaderLayout(n, major);
    var h := HeadLayout(major, n);
    assert h[0] == major + InitialCode(n);
    SplitInitial(major, InitialCode(n));
    hide HeadLayout, CountHeader, CountAt;
    ThenClean(Clean(h), r);
    assert Rest(st) == h + (r.bytes + tail);
    assert st.bytes[st.cursor] == Rest(st)[0];
    CountRead(major, n, st, r.bytes + tail);
    st2 := CountAt(st, major).1;
  }

  /** What one round of the `forEach` of `putArray` writes, and what follows it. */
  lemma ItemLayout(values: seq<Value>, i: nat)
    requires forall j :: 0 <= j < |values| ==> Readable(values[j])
    requires i < |values|
    ensures |ItemEncodings(values)| == |values| && Readable(values[i]) && ScalarBytes(values[i]).Some?
    ensures ItemEncodings(values)[i] == Emitted(ScalarBytes(values[i]).value, NoFault)
    ensures Run(ItemEncodings(values), i) == Then(ItemEncodings(values)[i], Run(ItemEncodings(values), i + 1))
  {
    RunStep(ItemEncodings(values), i);
    ScalarClean(values[i]);
  }

  /** One round of the `readArray` loop reads back what one round of the `forEach` of `putArray` wrote. */
  lemma ItemRound(values: seq<Value>, i: nat, st: State, tail: seq<Byte>) returns (st1: State)
    requires forall j :: 0 <= j < |values| ==> Readable(values[j])
    requires i < |values| && st.Valid() && Rest(st) == Run(ItemEncodings(values), i).bytes + tail
    ensures st1.Valid() && Run(ItemEncodings(values), i).fault == Run(ItemEncodings(values), i + 1).fault
    ensures ReadAnyAt(st) == (Ok(values[i]), st1) && Rest(st1) == Run(ItemEncodings(values), i + 1).bytes + tail
  {
    hide *;
    ItemLayout(values, i);
    var es := ItemEncodings(values);
    var rest := Run(es, i + 1);
    ThenClean(es[i], rest);
    ScalarRead(values[i], st, rest.bytes + tail);
    st1 := ReadAnyAt(st).1;
    ReadAnyValid(st);
  }

  /** The element loop of `readArray` reads back what the `forEach` of `putArray` wrote. */
  lemma {:induction false} ItemsRead(values: seq<Value>, i: nat, st: State, tail: seq<Byte>)
    requires forall j :: 0 <= j < |values| ==> Readable(values[j])
    requires i <= |values| && st.Valid() && Rest(st) == Run(ItemEncodings(values), i).bytes + tail
    ensures Run(ItemEncodings(values), i).fault == NoFault
    ensures ReadItemsAt(st, |values| - i, values[..i]).0 == Ok(values)
    ensures Rest(ReadItemsAt(st, |values| - i, values[..i]).1) == tail
    decreases |values| - i
  {
    hide *;
    if i == |values| {
      ItemsEnd(values, st, tail);
    } else {
      var st1 := ItemRound(values, i, st, tail);
      ItemsStep(st, |values| - i, values[..i], Ok(values[i]), st1);
      assert values[..i] + [values[i]] == values[..i + 1];
      ItemsRead(values, i + 1, st1, tail);
    }
  }

  lemma ItemsEnd(values: seq<Value>, st: State, tail: seq<Byte>)
    requires st.Valid() && Rest(st) == Run(ItemEncodings(values), |values|).bytes + tail
    ensures Run(ItemEncodings(values), |values|).fault == NoFault
    ensures ReadItemsAt(st, 0, values[..|values|]) == (Ok(values), st) && Rest(st) == tail
  {
    assert values[..|values|] == values;
    RunEnd(ItemEncodings(values));
  }

  lemma ArrayBodyEmpty(st: State)
    requires st.Valid()
    ensures ArrayBodyAt(0, st) == (Ok([]), st)
  {
  }

  /** A positive count runs the element loop that many times. */
  lemma ArrayBodyCount(n: nat, st: State)
    requires 0 < n <= INT_MAX && st.Valid()
    ensures ArrayBodyAt(n, st) == ReadItemsAt(st, n, [])
  {
    hide ReadItemsAt, ToInt;
    assert ToInt(n) == n;
    assert ToInt(n - 1) == n - 1;
  }

  /** What `readArray` does after the count, on the elements `putArray` wrote. */
  lemma ArrayBody(values: seq<Value>, st2: State, tail: seq<Byte>)
    requires |values| <= INT_MAX && forall j :: 0 <= j < |values| ==> Readable(values[j])
    requires st2.Valid() && Rest(st2) == Run(ItemEncodings(values), 0).bytes + tail
    ensures Run(ItemEncodings(values), 0).fault == NoFault
    ensures ArrayBodyAt(|values|, st2).0 == Ok(values) && Rest(ArrayBodyAt(|values|, st2).1) == tail
  {
    hide *;
    if |values| == 0 {
      ItemsEnd(values, st2, tail);
      ArrayBodyEmpty(st2);
      assert values[..0] == values;
    } else {
      ArrayBodyCount(|values|, st2);
      assert values[..0] == [];
      ItemsRead(values, 0, st2, tail);
    }
  }

  /** `readArray` inverts `putArray`; `readAny` reads the same array. */
  lemma ArrayRead(values: seq<Value>, st: State, tail: seq<Byte>)
    requires |values| <= INT_MAX && forall j :: 0 <= j < |values| ==> Readable(values[j])
    requires st.Valid() && Rest(st) == ArrayBytes(values).bytes + tail
    ensures ArrayBytes(values).fault == NoFault
    ensures ReadArrayAt(st).0 == Ok(values) && Rest(ReadArrayAt(st).1) == tail
    ensures ReadAnyAt(st) == (Ok(Array(values)), ReadArrayAt(st).1)
  {
    var r := Run(ItemEncodings(values), 0);
    assert ArrayBytes(values) == Then(CountHeader(ToInt(|values|), ARRAY_HEADER), r);
    hide ArrayBytes, Run, ItemEncodings, CountHeader, ReadAnyAt, ReadArrayAt, ArrayBodyAt, CountAt, Rest;
    var st2 := ContainerHead(ARRAY_HEADER, |values|, r, st, tail);
    ArrayBody(values, st2, tail);
    ArrayOpening(st, Ok(|values|), st2);
    AnyArray(st, values, ReadArrayAt(st).1);
  }

  /**
   * The values `putStringKeyMap` writes and `readAny` gives back unchanged:
   * readable scalars, arrays of them, and string-key maps of them with
   * distinct keys.
   */
  ghost predicate MapReadable(v: Value)
    decreases v
  {
    match v
    case Array(items) => |items| <= INT_MAX && forall j :: 0 <= j < |items| ==> Readable(items[j])
    case StrMap(entries) => EntriesReadable(entries)
    case _ => Readable(v)
  }

  ghost predicate EntriesReadable(entries: seq<(seq<Byte>, Value)>)
    decreases StrMap(entries), 0
  {
    && |entries| <= INT_MAX
    && DistinctKeys(entries)
    && forall j :: 0 <= j < |entries| ==> MapReadable(entries[j].1)
  }

  /** `readAny` inverts the `when` of `putStringKeyMap` for one value. */
  lemma MapValueRead(v: Value, st: State, tail: seq<Byte>)
    requires MapReadable(v) && st.Valid() && Rest(st) == MapValueBytes(v).bytes + tail
    ensures MapValueBytes(v).fault == NoFault
    ensures ReadAnyAt(st).0 == Ok(v) && Rest(ReadAnyAt(st).1) == tail
    decreases v, 3
  {
    match v
    case Array(items) => ArrayRead(items, st, tail);
    case StrMap(entries) => StrMapRead(entries, st, tail);
    case _ => ScalarRead(v, st, tail);
  }

  /** `readStringKeyMap` inverts `putStringKeyMap`; `readAny` reads the same map. */
  lemma StrMapRead(entries: seq<(seq<Byte>, Value)>, st: State, tail: seq<Byte>)
    requires EntriesReadable(entries) && st.Valid() && Rest(st) == StrMapBytes(entries).bytes + tail
    ensures StrMapBytes(entries).fault == NoFault
    ensures ReadStringKeyMapAt(st).0 == Ok(entries) && Rest(ReadStringKeyMapAt(st).1) == tail
    ensures ReadAnyAt(st) == (Ok(StrMap(entries)), ReadStringKeyMapAt(st).1)
    decreases StrMap(entries), 2
  {
    var r := Run(EntryEncodings(entries), 0);
    assert StrMapBytes(entries) == Then(CountHeader(ToInt(|entries|), MAP_HEADER), r);
    hide StrMapBytes, Run, EntryEncodings, CountHeader, ReadAnyAt, ReadStringKeyMapAt, StringKeyMapBodyAt, CountAt, Rest, EntriesReadable;
    var st2 := ContainerHead(MAP_HEADER, |entries|, r, st, tail);
    StrMapBody(entries, st2, tail);
    ContainerOpening(st, Ok(|entries|), st2);
    AnyStrMap(st, entries, ReadStringKeyMapAt(st).1);
  }

  /** What `readStringKeyMap` does after the count, on the entries `putStringKeyMap` wrote. */
  lemma StrMapBody(entries: seq<(seq<Byte>, Value)>, st2: State, tail: seq<Byte>)
    requires EntriesReadable(entries) && st2.Valid() && Rest(st2) == Run(EntryEncodings(entries), 0).bytes + tail
    ensures Run(EntryEncodings(entries), 0).fault == NoFault
    ensures StringKeyMapBodyAt(|entries|, st2).0 == Ok(entries) && Rest(StringKeyMapBodyAt(|entries|, st2).1) == tail
    decreases StrMap(entries), 1
  {
    assert ToInt(|entries|) == |entries|;
    if |entries| == 0 {
      assert entries == [];
      RunEnd(EntryEncodings(entries));
    } else {
      assert Iterations(ToInt(|entries| - 1)) == |entries|;
      assert entries[..0] == [];
      hide Run, EntryEncodings, ReadEntriesAt, Rest, EntriesReadable;
      EntriesRead(entries, 0, st2, tail);
    }
  }

  /** The text key of an entry, read back by `readString`. */
  lemma KeyRead(key: seq<Byte>, st: State, more: seq<Byte>) returns (st1: State)
    requires st.Valid() && Rest(st) == StringBytes(key) + more
    ensures st1.Valid() && ReadStringAt(st) == (Ok(key), st1) && Rest(st1) == more
  {
    LengthPrefixedRead(key, STRING_HEADER, st, more);
    st1 := ReadStringAt(st).1;
  }

  /** One round of `readStringKeyMap`: the key, then the value. */
  lemma EntryOf(st: State, key: seq<Byte>, st1: State, v: Value, st2: State)
    requires st.Valid() && st1.Valid() && ReadStringAt(st) == (Ok(key), st1) && ReadAnyAt(st1) == (Ok(v), st2)
    ensures ReadEntryAt(st) == (Ok((key, v)), st2)
  {
    hide ReadStringAt, ReadAnyAt;
  }

  /** A key followed by a value that may throw, then the rest of the loop. */
  lemma RoundBytes(k: seq<Byte>, m: Emitted, rest: Emitted, tail: seq<Byte>)
    ensures Then(Then(Clean(k), m), rest).bytes + tail == k + (m.bytes + (if m.fault == NoFault then rest.bytes + tail else tail))
    ensures m.fault == NoFault ==> Then(Then(Clean(k), m), rest).fault == rest.fault
  {
  }

  /** What one round of the `forEach` of `putStringKeyMap` writes, and what follows it. */
  lemma EntryLayout(entries: seq<(seq<Byte>, Value)>, i: nat)
    requires EntriesReadable(entries) && i < |entries|
    ensures |EntryEncodings(entries)| == |entries| && MapReadable(entries[i].1)
    ensures !HasKey(entries[..i], entries[i].0)
    ensures EntryEncodings(entries)[i] == Then(Clean(StringBytes(entries[i].0)), MapValueBytes(entries[i].1))
    ensures Run(EntryEncodings(entries), i) == Then(EntryEncodings(entries)[i], Run(EntryEncodings(entries), i + 1))
  {
    RunStep(EntryEncodings(entries), i);
    FreshKey(entries, i);
  }

  /** One round of the `readStringKeyMap` loop reads back what one round of the `forEach` of `putStringKeyMap` wrote. */
  lemma EntryRound(entries: seq<(seq<Byte>, Value)>, i: nat, st: State, tail: seq<Byte>) returns (st2: State)
    requires EntriesReadable(entries)
    requires i < |entries| && st.Valid() && Rest(st) == Run(EntryEncodings(entries), i).bytes + tail
    ensures st2.Valid() && Run(EntryEncodings(entries), i).fault == Run(EntryEncodings(entries), i + 1).fault
    ensures ReadEntryAt(st) == (Ok(entries[i]), st2) && Rest(st2) == Run(EntryEncodings(entries), i + 1).bytes + tail
    decreases StrMap(entries), 0, |entries| - i, 0
  {
    hide *;
    EntryLayout(entries, i);
    var (key, v) := entries[i];
    var es := EntryEncodings(entries);
    var m := MapValueBytes(v);
    var rest := Run(es, i + 1);
    RoundBytes(StringBytes(key), m, rest, tail);
    var after := if m.fault == NoFault then rest.bytes + tail else tail;
    var st1 := KeyRead(key, st, m.bytes + after);
    MapValueRead(v, st1, after);
    ReadAnyValid(st1);
    st2 := ReadAnyAt(st1).1;
    EntryOf(st, key, st1, v, st2);
  }

  /** The entry loop of `readStringKeyMap` reads back what the `forEach` of `putStringKeyMap` wrote. */
  lemma {:induction false} EntriesRead(entries: seq<(seq<Byte>, Value)>, i: nat, st: State, tail: seq<Byte>)
    requires EntriesReadable(entries)
    requires i <= |entries| && st.Valid() && Rest(st) == Run(EntryEncodings(entries), i).bytes + tail
    ensures Run(EntryEncodings(entries), i).fault == NoFault
    ensures ReadEntriesAt(st, |entries| - i, entries[..i]).0 == Ok(entries)
    ensures Rest(ReadEntriesAt(st, |entries| - i, entries[..i]).1) == tail
    decreases StrMap(entries), 0, |entries| - i, 1
  {
    hide *;
    if i == |entries| {
      EntriesEnd(entries, st, tail);
    } else {
      EntryLayout(entries, i);
      var st2 := EntryRound(entries, i, st, tail);
      var (key, v) := entries[i];
      EntriesStep(st, |entries| - i, entries[..i], Ok((key, v)), st2);
      PutFresh(entries[..i], key, v);
      assert entries[..i] + [(key, v)] == entries[..i + 1];
      EntriesRead(entries, i + 1, st2, tail);
    }
  }

  lemma EntriesEnd(entries: seq<(seq<Byte>, Value)>, st: State, tail: seq<Byte>)
    requires st.Valid() && Rest(st) == Run(EntryEncodings(entries), |entries|).bytes + tail
    ensures Run(EntryEncodings(entries), |entries|).fault == NoFault
    ensures ReadEntriesAt(st, 0, entries[..|entries|]) == (Ok(entries), st) && Rest(st) == tail
  {
    assert entries[..|entries|] == entries;
    RunEnd(EntryEncodings(entries));
  }

  /** With distinct keys, no key appears before its own entry. */
  lemma FreshKey<K, V>(entries: seq<(K, V)>, i: nat)
    requires DistinctKeys(entries) && i < |entries|
    ensures !HasKey(entries[..i], entries[i].0)
  {
  }

  /** The pairs `putIntKeyMap` writes and `readIntKeyMap` gives back unchanged. */
  ghost predicate PairsReadable(pairs: seq<(Int32, Value)>)
  {
    && |pairs| <= INT_MAX
    && DistinctKeys(pairs)
    && forall j :: 0 <= j < |pairs| ==> Readable(pairs[j].1)
  }

  /** `readIntKeyMap` inverts `putIntKeyMap`. */
  lemma IntMapRead(pairs: seq<(Int32, Value)>, st: State, tail: seq<Byte>)
    requires PairsReadable(pairs) && st.Valid() && Rest(st) == IntMapBytes(pairs).bytes + tail
    ensures IntMapBytes(pairs).fault == NoFault
    ensures ReadIntKeyMapAt(st).0 == Ok(pairs) && Rest(ReadIntKeyMapAt(st).1) == tail
  {
    var r := Run(PairEncodings(pairs), 0);
    assert IntMapBytes(pairs) == Then(CountHeader(ToInt(|pairs|), MAP_HEADER), r);
    hide IntMapBytes, Run, PairEncodings, CountHeader, ReadIntKeyMapAt, IntKeyMapBodyAt, CountAt, Rest, PairsReadable;
    var st2 := ContainerHead(MAP_HEADER, |pairs|, r, st, tail);
    IntMapBody(pairs, st2, tail);
    ContainerOpening(st, Ok(|pairs|), st2);
  }

  /** What `readIntKeyMap` does after the count, on the pairs `putIntKeyMap` wrote. */
  lemma IntMapBody(pairs: seq<(Int32, Value)>, st2: State, tail: seq<Byte>)
    requires PairsReadable(pairs) && st2.Valid() && Rest(st2) == Run(PairEncodings(pairs), 0).bytes + tail
    ensures Run(PairEncodings(pairs), 0).fault == NoFault
    ensures IntKeyMapBodyAt(|pairs|, st2).0 == Ok(pairs) && Rest(IntKeyMapBodyAt(|pairs|, st2).1) == tail
  {
    assert ToInt(|pairs|) == |pairs|;
    if |pairs| == 0 {
      assert pairs == [];
      RunEnd(PairEncodings(pairs));
    } else {
      assert Iterations(ToInt(|pairs| - 1)) == |pairs|;
      assert pairs[..0] == [];
      hide Run, PairEncodings, ReadIntEntriesAt, Rest, PairsReadable;
      PairsRead(pairs, 0, st2, tail);
    }
  }

  /** One round of `readIntKeyMap`: the key, cut to an `Int`, then the value. */
  lemma IntEntryOf(st: State, key: Int32, st1: State, v: Value, st2: State)
    requires st.Valid() && st1.Valid() && ReadNumberAt(st) == (Ok(key), st1) && ReadAnyAt(st1) == (Ok(v), st2)
    ensures ReadIntEntryAt(st) == (Ok((key, v)), st2)
  {
    hide ReadNumberAt, ReadAnyAt;
  }

  /** What one round of the `forEach` of `putIntKeyMap` writes, and what follows it. */
  lemma PairLayout(pairs: seq<(Int32, Value)>, i: nat)
    requires PairsReadable(pairs) && i < |pairs|
    ensures |PairEncodings(pairs)| == |pairs| && Readable(pairs[i].1) && ScalarBytes(pairs[i].1).Some?
    ensures LONG_MIN <= pairs[i].0 <= LONG_MAX
    ensures !HasKey(pairs[..i], pairs[i].0)
    ensures PairEncodings(pairs)[i] == Then(Clean(NumberBytes(pairs[i].0)), Emitted(ScalarBytes(pairs[i].1).value, NoFault))
    ensures Run(PairEncodings(pairs), i) == Then(PairEncodings(pairs)[i], Run(PairEncodings(pairs), i + 1))
  {
    RunStep(PairEncodings(pairs), i);
    ScalarClean(pairs[i].1);
    FreshKey(pairs, i);
  }

  /** One round of the `readIntKeyMap` loop reads back what one round of the `forEach` of `putIntKeyMap` wrote. */
  lemma PairRound(pairs: seq<(Int32, Value)>, i: nat, st: State, tail: seq<Byte>) returns (st2: State)
    requires PairsReadable(pairs)
    requires i < |pairs| && st.Valid() && Rest(st) == Run(PairEncodings(pairs), i).bytes + tail
    ensures st2.Valid() && Run(PairEncodings(pairs), i).fault == Run(PairEncodings(pairs), i + 1).fault
    ensures ReadIntEntryAt(st) == (Ok(pairs[i]), st2) && Rest(st2) == Run(PairEncodings(pairs), i + 1).bytes + tail
  {
    hide *;
    PairLayout(pairs, i);
    var (key, v) := pairs[i];
    var es := PairEncodings(pairs);
    var m := Emitted(ScalarBytes(v).value, NoFault);
    var rest := Run(es, i + 1);
    RoundBytes(NumberBytes(key), m, rest, tail);
    var more := m.bytes + (rest.bytes + tail);
    NumberReadAt(key, st, more);
    RestPrefix(st, NumberBytes(key), more);
    var st1 := ReadNumberAt(st).1;
    ScalarRead(v, st1, rest.bytes + tail);
    ReadAnyValid(st1);
    st2 := ReadAnyAt(st1).1;
    IntEntryOf(st, key, st1, v, st2);
  }

  /** The entry loop of `readIntKeyMap` reads back what the `forEach` of `putIntKeyMap` wrote. */
  lemma {:induction false} PairsRead(pairs: seq<(Int32, Value)>, i: nat, st: State, tail: seq<Byte>)
    requires PairsReadable(pairs)
    requires i <= |pairs| && st.Valid() && Rest(st) == Run(PairEncodings(pairs), i).bytes + tail
    ensures Run(PairEncodings(pairs), i).fault == NoFault
    ensures ReadIntEntriesAt(st, |pairs| - i, pairs[..i]).0 == Ok(pairs)
    ensures Rest(ReadIntEntriesAt(st, |pairs| - i, pairs[..i]).1) == tail
    decreases |pairs| - i
  {
    hide *;
    if i == |pairs| {
      PairsEnd(pairs, st, tail);
    } else {
      PairLayout(pairs, i);
      var st2 := PairRound(pairs, i, st, tail);
      var (key, v) := pairs[i];
      IntEntriesStep(st, |pairs| - i, pairs[..i], Ok((key, v)), st2);
      PutFresh(pairs[..i], key, v);
      assert pairs[..i] + [(key, v)] == pairs[..i + 1];
      PairsRead(pairs, i + 1, st2, tail);
    }
  }

  lemma PairsEnd(pairs: seq<(Int32, Value)>, st: State, tail: seq<Byte>)
    requires st.Valid() && Rest(st) == Run(PairEncodings(pairs), |pairs|).bytes + tail
    ensures Run(PairEncodings(pairs), |pairs|).fault == NoFault
    ensures ReadIntEntriesAt(st, 0, pairs[..|pairs|]) == (Ok(pairs), st) && Rest(st) == tail
  {
    assert pairs[..|pairs|] == pairs;
    RunEnd(PairEncodings(pairs));
  }

  /** `CBORReader(CBORWriter().putArray(values).compute()).readArray()` gives `values` back. */
  lemma ArrayRoundTrip(values: seq<Value>)
    requires forall j :: 0 <= j < |values| ==> Readable(values[j])
    requires |values| <= INT_MAX && |ArrayBytes(values).bytes| <= INT_MAX
    ensures ArrayBytes(values).fault == NoFault
    ensures ReadArrayAt(State(ArrayBytes(values).bytes, 0)).0 == Ok(values)
  {
    var st := State(ArrayBytes(values).bytes, 0);
    assert Rest(st) == ArrayBytes(values).bytes + [];
    ArrayRead(values, st, []);
  }

  /** `CBORReader(CBORWriter().putStringKeyMap(m).compute()).readStringKeyMap()` gives `m` back, in insertion order. */
  lemma StrMapRoundTrip(entries: seq<(seq<Byte>, Value)>)
    requires EntriesReadable(entries) && |StrMapBytes(entries).bytes| <= INT_MAX
    ensures StrMapBytes(entries).fault == NoFault
    ensures ReadStringKeyMapAt(State(StrMapBytes(entries).bytes, 0)).0 == Ok(entries)
  {
    var st := State(StrMapBytes(entries).bytes, 0);
    assert Rest(st) == StrMapBytes(entries).bytes + [];
    StrMapRead(entries, st, []);
  }

  /** `CBORReader(CBORWriter().putIntKeyMap(m).compute()).readIntKeyMap()` gives `m` back, in insertion order. */
  lemma IntMapRoundTrip(pairs: seq<(Int32, Value)>)
    requires PairsReadable(pairs) && |IntMapBytes(pairs).bytes| <= INT_MAX
    ensures IntMapBytes(pairs).fault == NoFault
    ensures ReadIntKeyMapAt(State(IntMapBytes(pairs).bytes, 0)).0 == Ok(pairs)
  {
    var st := State(IntMapBytes(pairs).bytes, 0);
    assert Rest(st) == IntMapBytes(pairs).bytes + [];
    IntMapRead(pairs, st, []);
  }

  /** The elements `putArray` writes without throwing: no list, map or `UByteArray` among them. */
  predicate Writable(values: seq<Value>)
  {
    forall j :: 0 <= j < |values| ==> ScalarBytes(values[j]).Some?
  }

  /** The elements' encodings one after the other. */
  function ItemsLayout(values: seq<Value>): seq<Byte>
    requires Writable(values)
  {
    if values == [] then [] else ScalarBytes(values[0]).value + ItemsLayout(values[1..])
  }

  lemma {:induction false} RunLayout(values: seq<Value>, i: nat)
    requires Writable(values) && i <= |values|
    ensures Run(ItemEncodings(values), i) == Clean(ItemsLayout(values[i..]))
    decreases |values| - i
  {
    var es := ItemEncodings(values);
    if i == |values| {
      assert values[i..] == [];
      RunEnd(es);
    } else {
      RunStep(es, i);
      RunLayout(values, i + 1);
      assert values[i..][1..] == values[i + 1..];
      assert es[i] == ScalarOrFail(values[i]);
    }
  }

  /** A call that throws ends the `forEach`: the run throws too. */
  lemma {:induction false} RunStops(es: seq<Emitted>, i: nat, j: nat)
    requires i <= j < |es| && es[j].fault != NoFault
    ensures Run(es, i).fault != NoFault
    decreases j - i
  {
    RunStep(es, i);
    if i < j {
      RunStops(es, i + 1, j);
    }
  }

  /**
   * `putArray` writes the head for the size, then each element's encoding;
   * it throws `AssertionError` exactly when an element is a list, a map or
   * a `UByteArray`.
   */
  lemma ArrayLayout(values: seq<Value>)
    requires |values| <= INT_MAX
    ensures Writable(values) ==> ArrayBytes(values) == Clean(HeadLayout(ARRAY_HEADER, |values|) + ItemsLayout(values))
    ensures ArrayBytes(values).fault == NoFault <==> Writable(values)
  {
    var es := ItemEncodings(values);
    assert ToInt(|values|) == |values|;
    CountHeaderLayout(|values|, ARRAY_HEADER);
    assert ArrayBytes(values) == Then(Clean(HeadLayout(ARRAY_HEADER, |values|)), Run(es, 0));
    hide ArrayBytes, CountHeader, HeadLayout, ItemsLayout, ScalarBytes, MapValueBytes;
    if Writable(values) {
      RunLayout(values, 0);
      assert values[0..] == values;
    } else {
      var j :| 0 <= j < |values| && ScalarBytes(values[j]).None?;
      assert es[j] == ScalarOrFail(values[j]);
      RunStops(es, 0, j);
    }
  }
}
