/** The DNS API on the other end of the wire, as an abstract machine: a list of records with unique IDs
    and unique (name, type) pairs, and requests that may be lost on the way there or on the way back. */
module ZoneServer {
  import opened Requests
  import opened Zones

  /** What became of a request: served and answered, never served, or served with the answer lost. */
  datatype Fate = Answered | RequestLost | AnswerLost

  method AnyFate() returns (f: Fate) {
    f :| true;
  }

  /** A write that succeeded left `target`; one that failed left `target` or `before`. */
  ghost predicate Wrote<T(!new)>(before: T, after: T, target: T, ok: bool) {
    after == target || (!ok && after == before)
  }

  ghost predicate DistinctIDs(recs: seq<Record>, nextID: nat) {
    recs == [] ||
    var n := |recs| - 1;
    0 < recs[n].id <= nextID && recs[n].id !in IDsOf(recs[..n]) && DistinctIDs(recs[..n], nextID)
  }

  ghost function IDsOf(recs: seq<Record>): set<nat> {
    set r | r in recs :: r.id
  }

  /** The same, position by position. */
  ghost predicate DistinctEach(recs: seq<Record>, nextID: nat) {
    && (forall i :: 0 <= i < |recs| ==> 0 < recs[i].id <= nextID)
    && (forall i, j :: 0 <= i < j < |recs| ==> recs[i].id != recs[j].id)
  }

  lemma DistinctStep(recs: seq<Record>, r: Record, nextID: nat)
    ensures DistinctEach(recs + [r], nextID)
       <==> 0 < r.id <= nextID && r.id !in IDsOf(recs) && DistinctEach(recs, nextID)
  {
    var all := recs + [r];
    assert forall i :: 0 <= i < |recs| ==> all[i] == recs[i] && recs[i] in recs && recs[i].id in IDsOf(recs);
    assert all[|recs|] == r;
  }

  lemma {:induction false} DistinctMeans(recs: seq<Record>, nextID: nat)
    ensures DistinctIDs(recs, nextID) <==> DistinctEach(recs, nextID)
  {
    if recs != [] {
      var n := |recs| - 1;
      DistinctMeans(recs[..n], nextID);
      DistinctStep(recs[..n], recs[n], nextID);
      assert recs == recs[..n] + [recs[n]];
    }
  }

  /** The records of a name and type, in zone order. */
  function Matching(recs: seq<Record>, k: Key): (m: seq<Record>)
    ensures forall r :: r in m <==> r in recs && KeyOf(r) == k
  {
    if recs == [] then []
    else (if KeyOf(recs[0]) == k then [recs[0]] else []) + Matching(recs[1..], k)
  }

  /** Where an ID is, or the length of the list. */
  function IndexOf(recs: seq<Record>, id: nat): (i: nat)
    ensures i <= |recs|
    ensures i < |recs| ==> recs[i].id == id
    ensures i == |recs| ==> forall j :: 0 <= j < |recs| ==> recs[j].id != id
  {
    if recs == [] then 0 else if recs[0].id == id then 0 else 1 + IndexOf(recs[1..], id)
  }

  /** The record with an ID, if any, and it is one of the given name and type. */
  predicate Has(recs: seq<Record>, id: nat, k: Key) {
    var i := IndexOf(recs, id);
    i < |recs| && KeyOf(recs[i]) == k
  }

  lemma {:induction false} Unique(recs: seq<Record>, nextID: nat)
    requires DistinctIDs(recs, nextID)
    ensures forall i :: 0 <= i < |recs| ==> IndexOf(recs, recs[i].id) == i
  {
    DistinctMeans(recs, nextID);
  }

  lemma IDsPut(recs: seq<Record>, nextID: nat, i: nat, r: Record)
    requires DistinctIDs(recs, nextID) && i < |recs| && r.id == recs[i].id
    ensures DistinctIDs(recs[i := r], nextID) && Has(recs[i := r], r.id, KeyOf(r))
  {
    DistinctMeans(recs, nextID);
    DistinctMeans(recs[i := r], nextID);
    Unique(recs[i := r], nextID);
    assert recs[i := r][i] == r;
  }

  lemma WithoutDistinct(recs: seq<Record>, nextID: nat, i: nat)
    requires i < |recs| && DistinctEach(recs, nextID)
    ensures var rest := Without(recs, i);
            DistinctEach(rest, nextID) && forall j :: 0 <= j < |rest| ==> rest[j].id != recs[i].id
  {
    var rest := Without(recs, i);
    assert forall j :: 0 <= j < |rest| ==> rest[j] == recs[if j < i then j else j + 1];
  }

  lemma IDsRemove(recs: seq<Record>, nextID: nat, i: nat)
    requires DistinctIDs(recs, nextID) && i < |recs|
    ensures DistinctIDs(Without(recs, i), nextID) && IndexOf(Without(recs, i), recs[i].id) == |recs| - 1
  {
    DistinctMeans(recs, nextID);
    WithoutDistinct(recs, nextID, i);
    DistinctMeans(Without(recs, i), nextID);
  }

  lemma IDsPost(recs: seq<Record>, nextID: nat, r: Record)
    requires DistinctIDs(recs, nextID) && r.id == nextID + 1
    ensures DistinctIDs(recs + [r], nextID + 1) && Has(recs + [r], r.id, KeyOf(r))
  {
    DistinctMeans(recs, nextID);
    DistinctMeans(recs + [r], nextID + 1);
    Unique(recs + [r], nextID + 1);
    assert (recs + [r])[|recs|] == r;
  }

  /** A lookup finds the zone's entry, and nothing else. */
  lemma MatchingFinds(recs: seq<Record>, nextID: nat, z: Zone, k: Key)
    requires Lists(recs, z) && DistinctIDs(recs, nextID)
    ensures Matching(recs, k) != [] <==> k in z
    ensures Matching(recs, k) != [] ==>
              && Has(recs, Matching(recs, k)[0].id, k) && EntryOf(Matching(recs, k)[0]) == z[k]
  {
    ListsMeans(recs, z);
    Unique(recs, nextID);
    if Matching(recs, k) != [] {
      assert Matching(recs, k)[0] in Matching(recs, k);
      var i :| 0 <= i < |recs| && recs[i] == Matching(recs, k)[0];
    }
    if k in z {
      var i :| 0 <= i < |recs| && KeyOf(recs[i]) == k;
      assert recs[i] in Matching(recs, k);
    }
  }

  class ZoneServer {
    var recs: seq<Record>
    var nextID: nat
    ghost var entries: Zone
    /** The requests clients have sent, with what they heard back. */
    ghost var log: seq<Request>

    ghost predicate Valid()
      reads `recs, `nextID, `entries
    {
      Lists(recs, entries) && DistinctIDs(recs, nextID)
    }

    constructor ()
      ensures Valid() && entries == map[] && log == []
    {
      recs, nextID, entries, log := [], 0, map[], [];
    }

    method Find(name: string, typ: string) returns (fate: Fate, got: seq<Record>)
      modifies `log
      ensures log == old(log) + [Read(fate.Answered?)]
      ensures fate.Answered? ==> got == Matching(recs, Key(name, typ))
    {
      fate := AnyFate();
      got := if fate.Answered? then Matching(recs, Key(name, typ)) else [];
      log := log + [Read(fate.Answered?)];
    }

    /** Page `page` of the listing; pages count from 1. */
    method Page(page: nat, perPage: nat) returns (fate: Fate, got: seq<Record>)
      requires page > 0
      modifies `log
      ensures log == old(log) + [Read(fate.Answered?)]
      ensures fate.Answered? && (page - 1) * perPage <= |recs| <= page * perPage ==> got == recs[(page - 1) * perPage..]
      ensures fate.Answered? && page * perPage <= |recs| ==> got == recs[(page - 1) * perPage..page * perPage]
      ensures fate.Answered? && |recs| < (page - 1) * perPage ==> got == []
    {
      fate := AnyFate();
      got := [];
      var first, last := (page - 1) * perPage, page * perPage;
      assert last == first + perPage;
      if fate.Answered? && first <= |recs| {
        got := if last <= |recs| then recs[first..last] else recs[first..];
      }
      log := log + [Read(fate.Answered?)];
    }

    method Put(id: nat, body: Record) returns (fate: Fate, got: Record)
      requires Valid() && Has(recs, id, KeyOf(body))
      modifies this
      ensures Valid() && log == old(log) + [Set(KeyOf(body), EntryOf(body), fate.Answered?)]
      ensures entries == if fate.RequestLost? then old(entries) else old(entries)[KeyOf(body) := EntryOf(body)]
      ensures fate.Answered? ==> got == body.(id := id) && Has(recs, id, KeyOf(body))
    {
      var i := IndexOf(recs, id);
      fate := AnyFate();
      got := body.(id := id);
      log := log + [Set(KeyOf(body), EntryOf(body), fate.Answered?)];
      if !fate.RequestLost? {
        ListsPut(recs, entries, i, got);
        IDsPut(recs, nextID, i, got);
        recs, entries := recs[i := got], entries[KeyOf(got) := EntryOf(got)];
      }
    }

    method Create(r: Record)
      requires Valid() && KeyOf(r) !in entries && r.id == nextID + 1
      modifies `recs, `nextID, `entries
      ensures Valid() && entries == old(entries)[KeyOf(r) := EntryOf(r)] && Has(recs, r.id, KeyOf(r))
    {
      ListsPost(recs, entries, r);
      IDsPost(recs, nextID, r);
      recs, nextID, entries := recs + [r], nextID + 1, entries[KeyOf(r) := EntryOf(r)];
    }

    method Post(body: Record) returns (fate: Fate, got: Record)
      requires Valid() && KeyOf(body) !in entries
      modifies this
      ensures Valid() && log == old(log) + [Set(KeyOf(body), EntryOf(body), fate.Answered?)]
      ensures entries == if fate.RequestLost? then old(entries) else old(entries)[KeyOf(body) := EntryOf(body)]
      ensures fate.Answered? ==> got == body.(id := got.id) && Has(recs, got.id, KeyOf(body))
    {
      fate := AnyFate();
      got := body.(id := nextID + 1);
      log := log + [Set(KeyOf(body), EntryOf(body), fate.Answered?)];
      if !fate.RequestLost? {
        Create(got);
      }
    }

    /** Somebody else removes the record meanwhile, or nobody does. */
    method Meanwhile(id: nat, ghost k: Key) returns (vanished: bool)
      requires Valid() && Has(recs, id, k)
      modifies `recs, `entries
      ensures Valid() && entries == if vanished then old(entries) - {k} else old(entries)
      ensures vanished <==> IndexOf(recs, id) == |recs|
      ensures !vanished ==> recs == old(recs)
    {
      vanished := *;
      if vanished {
        var i := IndexOf(recs, id);
        ListsRemove(recs, entries, i);
        IDsRemove(recs, nextID, i);
        recs, entries := Without(recs, i), entries - {KeyOf(recs[i])};
        assert Valid();
      }
    }

    /** An ID nobody has is answered with an error. */
    method DeleteByID(id: nat, ghost k: Key) returns (fate: Fate, found: bool)
      requires Valid() && (IndexOf(recs, id) == |recs| || Has(recs, id, k))
      modifies this
      ensures Valid() && log == old(log) + [Unset(k, fate.Answered? && found)]
      ensures found == Has(old(recs), id, k)
      ensures entries == if found && !fate.RequestLost? then old(entries) - {k} else old(entries)
    {
      var i := IndexOf(recs, id);
      fate := AnyFate();
      found := i < |recs|;
      log := log + [Unset(k, fate.Answered? && found)];
      if found && !fate.RequestLost? {
        ListsRemove(recs, entries, i);
        IDsRemove(recs, nextID, i);
        recs, entries := Without(recs, i), entries - {KeyOf(recs[i])};
        assert Valid();
      }
    }
  }
}
