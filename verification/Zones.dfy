/** DNS zones as values, what a reconciliation should make of one, and how reconciliations that crash,
    restart, or share a zone add up. */
module Zones {

  /** A tenant DNS entry. `ttl` 0 asks for the provider's default; `id` 0 means no ID yet. */
  datatype Record = Record(name: string, typ: string, content: string, ttl: int, id: nat)

  datatype Key = Key(name: string, typ: string)

  datatype Entry = Entry(content: string, ttl: int)

  /** A zone with IDs left aside. */
  type Zone = map<Key, Entry>

  /** A zone with TTLs left aside too: where each (name, type) points. */
  type Pointers = map<Key, string>

  function KeyOf(r: Record): Key {
    Key(r.name, r.typ)
  }

  function EntryOf(r: Record): Entry {
    Entry(r.content, r.ttl)
  }

  function PointersOf(z: Zone): Pointers {
    map k | k in z :: z[k].content
  }

  /** `recs` holds every entry of `z`, each exactly once. */
  ghost predicate Lists(recs: seq<Record>, z: Zone) {
    if recs == [] then z == map[]
    else
      var r := recs[|recs| - 1];
      KeyOf(r) in z && EntryOf(r) == z[KeyOf(r)] && Lists(recs[..|recs| - 1], z - {KeyOf(r)})
  }

  /** The same, position by position. */
  ghost predicate ListsEach(recs: seq<Record>, z: Zone) {
    && (forall i, j :: 0 <= i < j < |recs| ==> KeyOf(recs[i]) != KeyOf(recs[j]))
    && (forall i :: 0 <= i < |recs| ==> KeyOf(recs[i]) in z && EntryOf(recs[i]) == z[KeyOf(recs[i])])
    && (forall k :: k in z ==> exists i :: 0 <= i < |recs| && KeyOf(recs[i]) == k)
  }

  lemma EachOfRest(recs: seq<Record>, z: Zone)
    requires recs != [] && ListsEach(recs, z)
    ensures ListsEach(recs[..|recs| - 1], z - {KeyOf(recs[|recs| - 1])})
  {
  }

  lemma EachWithLast(recs: seq<Record>, r: Record, z: Zone)
    requires KeyOf(r) in z && EntryOf(r) == z[KeyOf(r)] && ListsEach(recs, z - {KeyOf(r)})
    ensures ListsEach(recs + [r], z)
  {
    var all := recs + [r];
    assert all[|recs|] == r;
    forall i | 0 <= i < |recs|
      ensures KeyOf(all[i]) in z && KeyOf(all[i]) != KeyOf(r) && EntryOf(all[i]) == z[KeyOf(all[i])]
    {
      assert all[i] == recs[i] && KeyOf(recs[i]) in z - {KeyOf(r)};
    }
    forall k | k in z
      ensures exists i :: 0 <= i < |all| && KeyOf(all[i]) == k
    {
      if k != KeyOf(r) {
        assert k in z - {KeyOf(r)};
        var i :| 0 <= i < |recs| && KeyOf(recs[i]) == k;
        assert KeyOf(all[i]) == k;
      }
    }
  }

  lemma {:induction false} ListsMeans(recs: seq<Record>, z: Zone)
    ensures Lists(recs, z) <==> ListsEach(recs, z)
    decreases |recs|
  {
    if recs != [] {
      ListsMeans(recs[..|recs| - 1], z - {KeyOf(recs[|recs| - 1])});
      if Lists(recs, z) {
        EachWithLast(recs[..|recs| - 1], recs[|recs| - 1], z);
        assert recs == recs[..|recs| - 1] + [recs[|recs| - 1]];
      }
      if ListsEach(recs, z) {
        EachOfRest(recs, z);
      }
    }
  }

  lemma {:induction false} ListsHas(recs: seq<Record>, z: Zone, i: nat)
    requires Lists(recs, z) && i < |recs|
    ensures KeyOf(recs[i]) in z && EntryOf(recs[i]) == z[KeyOf(recs[i])]
    ensures i < |recs| - 1 ==> KeyOf(recs[i]) != KeyOf(recs[|recs| - 1])
    decreases |recs|
  {
    if i < |recs| - 1 {
      ListsHas(recs[..|recs| - 1], z - {KeyOf(recs[|recs| - 1])}, i);
    }
  }

  lemma {:induction false} ListsPut(recs: seq<Record>, z: Zone, i: nat, r: Record)
    requires Lists(recs, z) && i < |recs| && KeyOf(recs[i]) == KeyOf(r)
    ensures Lists(recs[i := r], z[KeyOf(r) := EntryOf(r)])
    decreases |recs|
  {
    var n := |recs| - 1;
    var z' := z[KeyOf(r) := EntryOf(r)];
    if i == n {
      assert recs[i := r][..n] == recs[..n];
      assert z' - {KeyOf(r)} == z - {KeyOf(r)};
    } else {
      ListsHas(recs, z, i);
      ListsPut(recs[..n], z - {KeyOf(recs[n])}, i, r);
      assert recs[i := r][..n] == recs[..n][i := r];
      assert z' - {KeyOf(recs[n])} == (z - {KeyOf(recs[n])})[KeyOf(r) := EntryOf(r)];
    }
  }

  lemma ListsPost(recs: seq<Record>, z: Zone, r: Record)
    requires Lists(recs, z) && KeyOf(r) !in z
    ensures Lists(recs + [r], z[KeyOf(r) := EntryOf(r)])
  {
    assert (recs + [r])[..|recs|] == recs;
    assert z[KeyOf(r) := EntryOf(r)] - {KeyOf(r)} == z;
  }

  function Without(recs: seq<Record>, i: nat): seq<Record>
    requires i < |recs|
  {
    recs[..i] + recs[i + 1..]
  }

  lemma {:induction false} ListsRemove(recs: seq<Record>, z: Zone, i: nat)
    requires Lists(recs, z) && i < |recs|
    ensures Lists(Without(recs, i), z - {KeyOf(recs[i])})
    decreases |recs|
  {
    var n := |recs| - 1;
    if i == n {
      assert Without(recs, i) == recs[..n];
    } else {
      ListsHas(recs, z, i);
      ListsRemove(recs[..n], z - {KeyOf(recs[n])}, i);
      assert Without(recs, i)[..n - 1] == Without(recs[..n], i);
      assert Without(recs, i)[n - 1] == recs[n];
      assert z - {KeyOf(recs[i])} - {KeyOf(recs[n])} == z - {KeyOf(recs[n])} - {KeyOf(recs[i])};
    }
  }

  function A(name: string): Key {
    Key(name, "A")
  }

  lemma SameEverywhere(t: Pointers, z: Pointers)
    requires forall k: Key :: SameAt(t, z, k)
    ensures t == z
  {
    forall k: Key
      ensures k in t <==> k in z
      ensures k in t ==> t[k] == z[k]
    {
      assert SameAt(t, z, k);
    }
  }

  // ---------------------------------------------------------------- what a reconciliation is for

  /** `t` and `z` hold the same at `k`, or both nothing. */
  predicate SameAt(t: Pointers, z: Pointers, k: Key) {
    (k in t <==> k in z) && (k in t ==> t[k] == z[k])
  }

  predicate Wanted(want: set<string>, k: Key) {
    k.typ == "A" && k.name in want
  }

  /** An A record at `ip`: the records a manager regards as its own. */
  predicate Mine(z: Pointers, ip: string, k: Key) {
    k in z && k.typ == "A" && z[k] == ip
  }

  /** The documented outcome: every wanted name has an A record at `ip`, no other name does, an A record
      that was at `ip` unwanted is gone, and whatever is neither is left alone. */
  ghost predicate Reconciled(z: Pointers, t: Pointers, want: set<string>, ip: string) {
    && (forall k: Key :: Wanted(want, k) ==> Mine(t, ip, k))
    && (forall k: Key :: Mine(t, ip, k) ==> Wanted(want, k))
    && (forall k: Key :: !Wanted(want, k) && Mine(z, ip, k) ==> k !in t)
    && (forall k: Key :: !Wanted(want, k) && !Mine(z, ip, k) ==> SameAt(t, z, k))
  }

  function KeysOf(names: set<string>): (keys: set<Key>)
    ensures forall k: Key :: k in keys <==> Wanted(names, k)
  {
    var keys := set n | n in names :: A(n);
    assert forall k: Key :: Wanted(names, k) ==> k == A(k.name);
    keys
  }

  /** The names whose A record is at `ip` though nobody wants them. */
  function Surplus(z: Pointers, want: set<string>, ip: string): (names: set<string>)
    ensures forall n :: n in names <==> Mine(z, ip, A(n)) && n !in want
  {
    var names := set k | k in z && Mine(z, ip, k) && k.name !in want :: k.name;
    assert forall k: Key :: k.typ == "A" ==> k == A(k.name);
    names
  }

  /** The wanted names without an A record at `ip`. */
  function Missing(z: Pointers, want: set<string>, ip: string): set<string> {
    set n | n in want && !Mine(z, ip, A(n))
  }

  function Target(z: Pointers, want: set<string>, ip: string): Pointers {
    map k | k in z.Keys + KeysOf(want) && (Wanted(want, k) || !Mine(z, ip, k)) ::
      if Wanted(want, k) then ip else z[k]
  }

  lemma TargetAt(z: Pointers, want: set<string>, ip: string, k: Key)
    ensures Wanted(want, k) ==> Mine(Target(z, want, ip), ip, k)
    ensures !Wanted(want, k) && Mine(z, ip, k) ==> k !in Target(z, want, ip)
    ensures !Wanted(want, k) && !Mine(z, ip, k) ==> SameAt(Target(z, want, ip), z, k)
  {
  }

  /** Target is the one zone the documentation describes. */
  lemma TargetIsTheReconciledZone(z: Pointers, t: Pointers, want: set<string>, ip: string)
    ensures Reconciled(z, t, want, ip) <==> t == Target(z, want, ip)
  {
  }

  /** A record that points elsewhere is left alone exactly when its name is not wanted. */
  lemma ForeignRecordStaysIff(z: Pointers, want: set<string>, ip: string, k: Key)
    requires k in z && z[k] != ip
    ensures SameAt(Target(z, want, ip), z, k) <==> !Wanted(want, k)
  {
    TargetAt(z, want, ip, k);
  }

  // ---------------------------------------------------------------- crashes and reruns

  /** Every (name, type) holds what it held in `z` or what it should hold in the end. */
  ghost predicate Between(z: Pointers, now: Pointers, want: set<string>, ip: string) {
    forall k :: SameAt(now, z, k) || SameAt(now, Target(z, want, ip), k)
  }

  /** A rerun after a crash reaches the zone the uninterrupted run would have reached. */
  lemma RerunReachesTarget(z: Pointers, now: Pointers, want: set<string>, ip: string)
    requires Between(z, now, want, ip)
    ensures Target(now, want, ip) == Target(z, want, ip)
  {
    forall k: Key
      ensures SameAt(Target(now, want, ip), Target(z, want, ip), k)
    {
      assert SameAt(now, z, k) || SameAt(now, Target(z, want, ip), k);
      TargetAt(z, want, ip, k);
      TargetAt(now, want, ip, k);
    }
    SameEverywhere(Target(now, want, ip), Target(z, want, ip));
  }

  lemma CrashesCompose(z: Pointers, now: Pointers, later: Pointers, want: set<string>, ip: string)
    requires Between(z, now, want, ip) && Between(now, later, want, ip)
    ensures Between(z, later, want, ip)
  {
    RerunReachesTarget(z, now, want, ip);
    forall k: Key
      ensures SameAt(later, z, k) || SameAt(later, Target(z, want, ip), k)
    {
      assert SameAt(now, z, k) || SameAt(now, Target(z, want, ip), k);
      assert SameAt(later, now, k) || SameAt(later, Target(now, want, ip), k);
    }
  }

  /** However many runs crash in a row, the first one that completes reaches the target of the zone the
      first one started from. `zones` holds the zone before each run. */
  lemma {:induction false} AnyNumberOfCrashes(zones: seq<Pointers>, want: set<string>, ip: string)
    requires |zones| > 0
    requires forall i :: 0 <= i < |zones| - 1 ==> Between(zones[i], zones[i + 1], want, ip)
    ensures Between(zones[0], zones[|zones| - 1], want, ip)
    ensures Target(zones[|zones| - 1], want, ip) == Target(zones[0], want, ip)
  {
    var n := |zones| - 1;
    if n > 0 {
      AnyNumberOfCrashes(zones[..n], want, ip);
      CrashesCompose(zones[0], zones[n - 1], zones[n], want, ip);
      RerunReachesTarget(zones[0], zones[n], want, ip);
    }
  }

  /** A reconciled zone stays as it is, and a further run has nothing to write. */
  lemma ReconciledIsStable(z: Pointers, want: set<string>, ip: string)
    ensures var t := Target(z, want, ip);
            Target(t, want, ip) == t && Surplus(t, want, ip) == {} == Missing(t, want, ip)
  {
  }

  /** Nothing to write means nothing to change, and the other way round. */
  lemma InSyncIffNothingToWrite(z: Pointers, want: set<string>, ip: string)
    ensures Target(z, want, ip) == z <==> Surplus(z, want, ip) == {} && Missing(z, want, ip) == {}
  {
  }

  // ---------------------------------------------------------------- two fleets in one zone

  /** Two managers with different edge IPs and disjoint slug lists may reconcile a shared zone in either
      order, and afterwards neither has anything left to do. */
  lemma FleetsCommute(z: Pointers, want1: set<string>, ip1: string, want2: set<string>, ip2: string)
    requires ip1 != ip2 && want1 !! want2
    ensures Target(Target(z, want1, ip1), want2, ip2) == Target(Target(z, want2, ip2), want1, ip1)
    ensures var both := Target(Target(z, want1, ip1), want2, ip2);
            Target(both, want1, ip1) == both == Target(both, want2, ip2)
  {
    var a, b := Target(z, want1, ip1), Target(z, want2, ip2);
    forall k: Key
      ensures SameAt(Target(a, want2, ip2), Target(b, want1, ip1), k)
    {
      FleetsCommuteAt(z, want1, ip1, want2, ip2, k);
    }
    SameEverywhere(Target(a, want2, ip2), Target(b, want1, ip1));
    ReconciledIsStable(a, want2, ip2);
    ReconciledIsStable(b, want1, ip1);
  }

  lemma FleetsCommuteAt(z: Pointers, want1: set<string>, ip1: string, want2: set<string>, ip2: string, k: Key)
    requires ip1 != ip2 && want1 !! want2
    ensures SameAt(Target(Target(z, want1, ip1), want2, ip2), Target(Target(z, want2, ip2), want1, ip1), k)
  {
  }
}
