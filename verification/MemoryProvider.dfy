/** The in-process provider: a map from "name|type" strings to records. */
module MemoryProvider {
  import opened Requests
  import opened Zones

  // ---------------------------------------------------------------- the key encoding

  /** The string a record is stored under. */
  function Encode(k: Key): string {
    k.name + "|" + k.typ
  }

  /** Record types are mnemonics such as A, CNAME and MX. */
  predicate PlainType(typ: string) {
    '|' !in typ
  }

  lemma LastBar(k: Key)
    requires PlainType(k.typ)
    ensures |Encode(k)| == |k.name| + 1 + |k.typ| && Encode(k)[|k.name|] == '|'
    ensures Encode(k)[..|k.name|] == k.name && Encode(k)[|k.name| + 1..] == k.typ
    ensures forall i :: |k.name| < i < |Encode(k)| ==> Encode(k)[i] != '|'
  {
  }

  /** With types that hold no bar, the string a record is stored under determines its name and type,
      whatever characters the name holds. */
  lemma EncodeInjective(k1: Key, k2: Key)
    requires PlainType(k1.typ) && PlainType(k2.typ) && Encode(k1) == Encode(k2)
    ensures k1 == k2
  {
    LastBar(k1);
    LastBar(k2);
    assert |k1.name| == |k2.name|;
  }

  /** A bar in the type breaks it: two different keys, one string. */
  lemma EncodeCollides()
    ensures var k1, k2 := Key("a|b", "c"), Key("a", "b|c"); k1 != k2 && Encode(k1) == Encode(k2)
  {
  }

  /** The keys the provider is meant for. */
  predicate Plain(k: Key) {
    PlainType(k.typ)
  }

  lemma EncodeIsInjective()
    ensures Injective(Encode, Plain)
  {
    forall k1: Key, k2: Key | Plain(k1) && Plain(k2) && Encode(k1) == Encode(k2)
      ensures k1 == k2
    {
      EncodeInjective(k1, k2);
    }
  }

  // ---------------------------------------------------------------- a keyed map as a zone

  // What follows holds of any key encoding that is injective on the keys in use.

  ghost predicate Injective<T(!new)>(enc: Key -> T, plain: Key -> bool) {
    forall k1, k2 :: plain(k1) && plain(k2) && enc(k1) == enc(k2) ==> k1 == k2
  }

  /** Each record of the map is stored under its own key, has an ID of its own and is an entry of `z`, which
      has no others. */
  ghost predicate Stores<T(!new)>(records: map<T, Record>, nextID: nat, enc: Key -> T, plain: Key -> bool, z: Zone)
    decreases |records|
  {
    if records == map[] then z == map[]
    else
      var s := Some(records);
      var r, k := records[s], KeyOf(records[s]);
      && s == enc(k) && plain(k) && 0 < r.id <= nextID && r.id !in IDsOf(records - {s})
      && k in z && z[k] == EntryOf(r)
      && Stores(records - {s}, nextID, enc, plain, z - {k})
  }

  ghost function Some<T(!new)>(records: map<T, Record>): (s: T)
    requires records != map[]
    ensures s in records
  {
    var s :| s in records;
    s
  }

  ghost function IDsOf<T(!new)>(records: map<T, Record>): set<nat> {
    set s | s in records :: records[s].id
  }

  /** The same, record by record. */
  ghost predicate StoresEach<T(!new)>(records: map<T, Record>, nextID: nat, enc: Key -> T, plain: Key -> bool, z: Zone) {
    && (forall s :: s in records ==>
          && s == enc(KeyOf(records[s])) && plain(KeyOf(records[s])) && 0 < records[s].id <= nextID
          && KeyOf(records[s]) in z && z[KeyOf(records[s])] == EntryOf(records[s]))
    && (forall s, t :: s in records && t in records && s != t ==> records[s].id != records[t].id)
    && (forall k :: k in z ==> enc(k) in records && KeyOf(records[enc(k)]) == k)
  }

  lemma EachOfRest<T(!new)>(records: map<T, Record>, nextID: nat, enc: Key -> T, plain: Key -> bool, z: Zone, s: T)
    requires s in records && StoresEach(records, nextID, enc, plain, z)
    ensures StoresEach(records - {s}, nextID, enc, plain, z - {KeyOf(records[s])})
    ensures records[s].id !in IDsOf(records - {s})
  {
  }

  lemma EachWithOneMore<T(!new)>(records: map<T, Record>, nextID: nat, enc: Key -> T, plain: Key -> bool, z: Zone, s: T)
    requires s in records && StoresEach(records - {s}, nextID, enc, plain, z - {KeyOf(records[s])})
    requires var r, k := records[s], KeyOf(records[s]);
             && s == enc(k) && plain(k) && 0 < r.id <= nextID && r.id !in IDsOf(records - {s})
             && k in z && z[k] == EntryOf(r)
    ensures StoresEach(records, nextID, enc, plain, z)
  {
    var rest, z' := records - {s}, z - {KeyOf(records[s])};
    forall t | t in records
      ensures t != s ==> t in rest && rest[t] == records[t] && records[t].id in IDsOf(rest)
    {
    }
    forall k | k in z
      ensures enc(k) in records && KeyOf(records[enc(k)]) == k
    {
      assert k != KeyOf(records[s]) ==> k in z' && enc(k) in rest;
    }
  }

  lemma {:induction false} StoresMeans<T(!new)>(records: map<T, Record>, nextID: nat, enc: Key -> T, plain: Key -> bool,
                                                z: Zone)
    ensures Stores(records, nextID, enc, plain, z) <==> StoresEach(records, nextID, enc, plain, z)
    decreases |records|
  {
    if records == map[] {
      assert StoresEach(records, nextID, enc, plain, z) ==> z == map[];
    } else {
      var s := Some(records);
      StoresMeans(records - {s}, nextID, enc, plain, z - {KeyOf(records[s])});
      if StoresEach(records, nextID, enc, plain, z) {
        EachOfRest(records, nextID, enc, plain, z, s);
      }
      if Stores(records, nextID, enc, plain, z) {
        EachWithOneMore(records, nextID, enc, plain, z, s);
      }
    }
  }

  lemma EachUpdate<T(!new)>(records: map<T, Record>, nextID: nat, enc: Key -> T, plain: Key -> bool, z: Zone, r: Record,
                            nextID': nat)
    requires Injective(enc, plain) && StoresEach(records, nextID, enc, plain, z) && plain(KeyOf(r))
    requires if enc(KeyOf(r)) in records then r.id == records[enc(KeyOf(r))].id && nextID' == nextID
             else r.id == nextID' == nextID + 1
    ensures StoresEach(records[enc(KeyOf(r)) := r], nextID', enc, plain, z[KeyOf(r) := EntryOf(r)])
  {
    var s := enc(KeyOf(r));
    var records', z' := records[s := r], z[KeyOf(r) := EntryOf(r)];
    forall t | t in records && t != s
      ensures KeyOf(records[t]) != KeyOf(r) && records[t].id != r.id
    {
    }
    forall k | k in z && k != KeyOf(r)
      ensures enc(k) != s
    {
      assert plain(KeyOf(records[enc(k)]));
    }
  }

  lemma EachRemove<T(!new)>(records: map<T, Record>, nextID: nat, enc: Key -> T, plain: Key -> bool, z: Zone, gone: Key)
    requires Injective(enc, plain) && StoresEach(records, nextID, enc, plain, z) && plain(gone)
    ensures StoresEach(records - {enc(gone)}, nextID, enc, plain, z - {gone})
  {
    forall k | k in z && k != gone
      ensures enc(k) != enc(gone)
    {
      assert plain(KeyOf(records[enc(k)]));
    }
  }

  lemma StoresUpdate<T(!new)>(records: map<T, Record>, nextID: nat, enc: Key -> T, plain: Key -> bool, z: Zone, r: Record,
                              nextID': nat)
    requires Injective(enc, plain) && Stores(records, nextID, enc, plain, z) && plain(KeyOf(r))
    requires if enc(KeyOf(r)) in records then r.id == records[enc(KeyOf(r))].id && nextID' == nextID
             else r.id == nextID' == nextID + 1
    ensures Stores(records[enc(KeyOf(r)) := r], nextID', enc, plain, z[KeyOf(r) := EntryOf(r)])
  {
    assert StoresEach(records[enc(KeyOf(r)) := r], nextID', enc, plain, z[KeyOf(r) := EntryOf(r)]) by {
      StoresMeans(records, nextID, enc, plain, z);
      EachUpdate(records, nextID, enc, plain, z, r, nextID');
    }
    StoresMeans(records[enc(KeyOf(r)) := r], nextID', enc, plain, z[KeyOf(r) := EntryOf(r)]);
  }

  lemma StoresRemove<T(!new)>(records: map<T, Record>, nextID: nat, enc: Key -> T, plain: Key -> bool, z: Zone, gone: Key)
    requires Injective(enc, plain) && Stores(records, nextID, enc, plain, z) && plain(gone)
    ensures Stores(records - {enc(gone)}, nextID, enc, plain, z - {gone})
  {
    assert StoresEach(records - {enc(gone)}, nextID, enc, plain, z - {gone}) by {
      StoresMeans(records, nextID, enc, plain, z);
      EachRemove(records, nextID, enc, plain, z, gone);
    }
    StoresMeans(records - {enc(gone)}, nextID, enc, plain, z - {gone});
  }

  lemma StoresUnder<T(!new)>(records: map<T, Record>, nextID: nat, enc: Key -> T, plain: Key -> bool, z: Zone, k: Key)
    requires Injective(enc, plain) && Stores(records, nextID, enc, plain, z) && plain(k)
    ensures enc(k) in records <==> k in z
    ensures forall s :: s in records ==> records[s].id <= nextID
  {
    StoresMeans(records, nextID, enc, plain, z);
  }

  /** Going through the map's keys, each once, goes through the zone's entries, each once. */
  lemma EachList<T(!new)>(records: map<T, Record>, nextID: nat, enc: Key -> T, plain: Key -> bool, z: Zone,
                          keys: seq<T>, out: seq<Record>)
    requires StoresEach(records, nextID, enc, plain, z) && |keys| == |out|
    requires forall i, j :: 0 <= i < j < |keys| ==> keys[i] != keys[j]
    requires forall i :: 0 <= i < |keys| ==> keys[i] in records && out[i] == records[keys[i]]
    requires forall s :: s in records ==> s in keys
    ensures ListsEach(out, z)
  {
    forall k | k in z
      ensures exists i :: 0 <= i < |out| && KeyOf(out[i]) == k
    {
      var i :| 0 <= i < |keys| && keys[i] == enc(k);
      assert KeyOf(out[i]) == k;
    }
    forall i, j | 0 <= i < j < |out|
      ensures KeyOf(out[i]) != KeyOf(out[j])
    {
      assert keys[i] == enc(KeyOf(out[i])) && keys[j] == enc(KeyOf(out[j]));
    }
  }

  lemma StoresList<T(!new)>(records: map<T, Record>, nextID: nat, enc: Key -> T, plain: Key -> bool, z: Zone,
                            keys: seq<T>, out: seq<Record>)
    requires Stores(records, nextID, enc, plain, z) && |keys| == |out|
    requires forall i, j :: 0 <= i < j < |keys| ==> keys[i] != keys[j]
    requires forall i :: 0 <= i < |keys| ==> keys[i] in records && out[i] == records[keys[i]]
    requires forall s :: s in records ==> s in keys
    ensures Lists(out, z)
  {
    assert ListsEach(out, z) by {
      StoresMeans(records, nextID, enc, plain, z);
      EachList(records, nextID, enc, plain, z, keys, out);
    }
    ListsMeans(out, z);
  }

  // ---------------------------------------------------------------- the provider

  class MemoryProvider {
    var records: map<string, Record>
    var nextID: nat
    /** The zone the records stand for. */
    ghost var entries: Zone
    /** The calls received. */
    ghost var log: seq<Request>

    ghost predicate Valid()
      reads `records, `nextID, `entries
    {
      Stores(records, nextID, Encode, Plain, entries)
    }

    constructor ()
      ensures Valid() && entries == map[] && log == []
    {
      records, nextID, entries, log := map[], 0, map[], [];
    }

    method Upsert(r: Record) returns (stored: Record)
      requires Valid() && PlainType(r.typ)
      modifies this
      ensures Valid() && entries == old(entries)[KeyOf(r) := EntryOf(r)]
      ensures stored == r.(id := stored.id) && log == old(log) + [Set(KeyOf(r), EntryOf(r), true)]
      // A known (name, type) keeps its ID; a new one gets an ID nobody has.
      ensures if KeyOf(r) in old(entries) then
                Encode(KeyOf(r)) in old(records) && stored.id == old(records[Encode(KeyOf(r))].id)
              else stored.id > 0 && forall s | s in old(records) :: old(records[s].id) != stored.id
    {
      EncodeIsInjective();
      StoresUnder(records, nextID, Encode, Plain, entries, KeyOf(r));
      ghost var ids := nextID;
      var key := Encode(KeyOf(r));
      if key in records {
        stored := r.(id := records[key].id);
      } else {
        nextID := nextID + 1;
        stored := r.(id := nextID);
      }
      StoresUpdate(records, ids, Encode, Plain, entries, stored, nextID);
      records, entries := records[key := stored], entries[KeyOf(r) := EntryOf(r)];
      log := log + [Set(KeyOf(r), EntryOf(r), true)];
    }

    method Delete(name: string, typ: string)
      requires Valid() && PlainType(typ)
      modifies this
      ensures Valid() && entries == old(entries) - {Key(name, typ)}
      ensures log == old(log) + [Unset(Key(name, typ), true)]
    {
      EncodeIsInjective();
      StoresRemove(records, nextID, Encode, Plain, entries, Key(name, typ));
      records, entries := records - {Encode(Key(name, typ))}, entries - {Key(name, typ)};
      log := log + [Unset(Key(name, typ), true)];
    }

    method List() returns (out: seq<Record>)
      requires Valid()
      modifies `log
      ensures Lists(out, entries) && log == old(log) + [Read(true)]
    {
      out := [];
      log := log + [Read(true)];
      ghost var done: seq<string> := [];
      var todo := records.Keys;
      while todo != {}
        invariant todo <= records.Keys && |done| == |out|
        invariant forall i :: 0 <= i < |done| ==> done[i] in records.Keys - todo && out[i] == records[done[i]]
        invariant forall i, j :: 0 <= i < j < |done| ==> done[i] != done[j]
        invariant forall s :: s in records.Keys - todo ==> s in done
      {
        var s :| s in todo;
        todo := todo - {s};
        out := out + [records[s]];
        done := done + [s];
      }
      StoresList(records, nextID, Encode, Plain, entries, done, out);
    }
  }
}
