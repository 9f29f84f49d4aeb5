/** The manager: slugs in, provider calls out. It runs over either provider, and any of its calls may fail,
    applied or not. */
module DnsManager {
  import opened Requests
  import opened Zones
  import M = MemoryProvider
  import S = ZoneServer
  import C = Cloudflare

  /** The implementations of the provider interface. */
  datatype Backend = Memory(m: M.MemoryProvider) | Cloudflare(c: C.CloudflareProvider) {

    ghost function Store(): object {
      match this
      case Memory(m) => m
      case Cloudflare(c) => c.server
    }

    ghost predicate Valid()
      reads Store()
    {
      match this
      case Memory(m) => m.Valid()
      case Cloudflare(c) => c.server.Valid()
    }

    ghost function Pointers(): Pointers
      requires Valid()
      reads Store()
    {
      match this
      case Memory(m) => PointersOf(m.entries)
      case Cloudflare(c) => PointersOf(c.server.entries)
    }

    /** The requests the store has received. */
    ghost function Log(): seq<Request>
      reads Store()
    {
      match this
      case Memory(m) => m.log
      case Cloudflare(c) => c.server.log
    }

    /** Without its configuration a provider sends nothing and fails. */
    predicate Usable() {
      Memory? || c.Configured()
    }

    /** The TTL a record gets: Cloudflare takes 1 for automatic where none is asked for. */
    function TtlOf(ttl: int): int {
      if Cloudflare? && ttl <= 0 then 1 else ttl
    }

    twostate lemma Undisturbed()
      requires allocated(Store()) && old(allocated(Store())) && unchanged(Store()) && old(Valid())
      ensures Valid() && Pointers() == old(Pointers()) && Log() == old(Log())
    {
    }

    /** It fails only with a request it sent, and writes at most once, to one key; it does write when the
        record is not there yet. */
    method Upsert(r: Record) returns (ok: bool, ghost sent: seq<Request>)
      requires Valid() && M.PlainType(r.typ)
      modifies Store()
      ensures Valid() && Log() == old(Log()) + sent
      ensures S.Wrote(old(Pointers()), Pointers(), old(Pointers())[KeyOf(r) := r.content], ok)
      ensures ok == (Usable() && AllDone(sent)) && (Memory? ==> ok)
      ensures !Usable() ==> sent == []
      ensures Writes(sent) == [] || Writes(sent) == [Set(KeyOf(r), Entry(r.content, TtlOf(r.ttl)), ok)]
      ensures Writes(sent) == [] ==> Pointers() == old(Pointers())
      ensures ok && Writes(sent) == [] ==> KeyOf(r) in old(Pointers()) && old(Pointers())[KeyOf(r)] == r.content
    {
      match this
      case Memory(m) =>
        PointersAfterUpsert(m.entries, KeyOf(r), EntryOf(r));
        OneRequest(Set(KeyOf(r), EntryOf(r), true));
        var _ := m.Upsert(r);
        ok, sent := true, [Set(KeyOf(r), EntryOf(r), true)];
      case Cloudflare(c) =>
        var stored;
        ghost var lookup, write, z;
        z := c.server.entries;
        PointersAfterUpsert(z, KeyOf(r), Entry(r.content, C.TtlOrDefault(r.ttl)));
        ok, stored, lookup, write := c.Upsert(r);
        sent := if c.Configured() then C.UpsertOutcome(z, r, lookup, write).sent else [];
        OneRequest(Read(lookup.Answered?));
        ReadThenWrite(Read(true), Set(KeyOf(r), Entry(r.content, C.TtlOrDefault(r.ttl)), write.Answered?));
    }

    method Delete(name: string, typ: string) returns (ok: bool, ghost sent: seq<Request>)
      requires Valid() && M.PlainType(typ)
      modifies Store()
      ensures Valid() && Log() == old(Log()) + sent
      ensures S.Wrote(old(Pointers()), Pointers(), old(Pointers()) - {Key(name, typ)}, ok)
      ensures ok == (Usable() && AllDone(sent)) && (Memory? ==> ok)
      ensures !Usable() ==> sent == []
      ensures Writes(sent) == [] || Writes(sent) == [Unset(Key(name, typ), ok)]
      ensures Writes(sent) == [] ==> Pointers() == old(Pointers())
      ensures ok && Writes(sent) == [] ==> Key(name, typ) !in old(Pointers())
    {
      match this
      case Memory(m) =>
        PointersAfterDelete(m.entries, Key(name, typ));
        OneRequest(Unset(Key(name, typ), true));
        m.Delete(name, typ);
        ok, sent := true, [Unset(Key(name, typ), true)];
      case Cloudflare(c) =>
        ghost var lookup, vanishes, write, z;
        z := c.server.entries;
        PointersAfterDelete(z, Key(name, typ));
        ok, lookup, vanishes, write := c.Delete(name, typ);
        sent := if c.Configured() then C.DeleteOutcome(z, Key(name, typ), lookup, vanishes, write).sent else [];
        OneRequest(Read(lookup.Answered?));
        ReadThenWrite(Read(true), Unset(Key(name, typ), ok));
    }

    method List() returns (ok: bool, out: seq<Record>, ghost sent: seq<Request>)
      requires Valid()
      modifies Store()
      ensures Valid() && Log() == old(Log()) + sent && Pointers() == old(Pointers())
      ensures ok ==> ListsPointers(out, Pointers())
      ensures ok == (Usable() && AllDone(sent)) && (Memory? ==> ok)
      ensures Writes(sent) == [] && (!Usable() ==> sent == [])
    {
      match this
      case Memory(m) =>
        out := m.List();
        ok, sent := true, [Read(true)];
        OneRequest(Read(true));
        PointersListed(out, m.entries);
      case Cloudflare(c) =>
        ghost var pages;
        ok, out, pages := c.List();
        sent := if c.Configured() then C.Reads(pages, ok) else [];
        C.ReadsOnly(pages, ok);
        if ok {
          PointersListed(out, c.server.entries);
        }
    }
  }

  lemma PointersAfterUpsert(z: Zone, k: Key, e: Entry)
    ensures PointersOf(z[k := e]) == PointersOf(z)[k := e.content]
    ensures k in z && z[k].content == e.content ==> PointersOf(z) == PointersOf(z)[k := e.content]
  {
  }

  lemma PointersAfterDelete(z: Zone, k: Key)
    ensures PointersOf(z - {k}) == PointersOf(z) - {k}
    ensures k !in z ==> PointersOf(z) - {k} == PointersOf(z)
  {
  }

  /** `recs` says where everything in the zone points. */
  ghost predicate ListsPointers(recs: seq<Record>, z: Pointers) {
    && (forall r :: r in recs ==> KeyOf(r) in z && z[KeyOf(r)] == r.content)
    && (forall k :: k in z ==> exists r :: r in recs && KeyOf(r) == k)
  }

  lemma PointersListed(recs: seq<Record>, z: Zone)
    requires Lists(recs, z)
    ensures ListsPointers(recs, PointersOf(z))
  {
    ListsMeans(recs, z);
    forall k | k in z
      ensures exists r :: r in recs && KeyOf(r) == k
    {
      var i :| 0 <= i < |recs| && KeyOf(recs[i]) == k;
      assert recs[i] in recs;
    }
  }

  // ---------------------------------------------------------------- a reconciliation under way

  /** The zone once the A records of `deleted` are gone and those of `upserted` are at `ip`. */
  function Progress(z: Pointers, deleted: set<string>, upserted: set<string>, ip: string): Pointers {
    map k | k in z.Keys + KeysOf(upserted) && (Wanted(upserted, k) || !Wanted(deleted, k)) ::
      if Wanted(upserted, k) then ip else z[k]
  }

  lemma ProgressStart(z: Pointers, ip: string)
    ensures Progress(z, {}, {}, ip) == z
  {
  }

  lemma ProgressDelete(z: Pointers, deleted: set<string>, n: string, ip: string)
    ensures Progress(z, deleted, {}, ip) - {A(n)} == Progress(z, deleted + {n}, {}, ip)
  {
  }

  lemma ProgressUpsert(z: Pointers, deleted: set<string>, upserted: set<string>, n: string, ip: string)
    ensures Progress(z, deleted, upserted, ip)[A(n) := ip] == Progress(z, deleted, upserted + {n}, ip)
  {
  }

  lemma ProgressBetween(z: Pointers, want: set<string>, ip: string, deleted: set<string>, upserted: set<string>)
    requires deleted <= Surplus(z, want, ip) && upserted <= Missing(z, want, ip)
    ensures Between(z, Progress(z, deleted, upserted, ip), want, ip)
  {
  }

  lemma ProgressDone(z: Pointers, want: set<string>, ip: string)
    ensures Progress(z, Surplus(z, want, ip), Missing(z, want, ip), ip) == Target(z, want, ip)
  {
  }

  // ---------------------------------------------------------------- the manager

  /** After deleting `names`, each once, what has been sent. */
  function Unsets(names: seq<string>): seq<Request> {
    if names == [] then [] else Unsets(names[..|names| - 1]) + [Unset(A(names[|names| - 1]), true)]
  }

  function Sets(names: seq<string>, e: Entry): seq<Request> {
    if names == [] then [] else Sets(names[..|names| - 1], e) + [Set(A(names[|names| - 1]), e, true)]
  }

  lemma {:induction false} SetsAndUnsetsCount(names: seq<string>, e: Entry)
    ensures |Unsets(names)| == |Sets(names, e)| == |names|
  {
    if names != [] {
      SetsAndUnsetsCount(names[..|names| - 1], e);
    }
  }

  /** `sent` holds exactly the deletions of `all`, in the order `names`, and reads. */
  ghost predicate Deleted(sent: seq<Request>, names: seq<string>, all: set<string>) {
    AllDone(sent) && Writes(sent) == Unsets(names) && Enumerates(names, all)
  }

  ghost predicate Upserted(sent: seq<Request>, names: seq<string>, all: set<string>, e: Entry) {
    AllDone(sent) && Writes(sent) == Sets(names, e) && Enumerates(names, all)
  }

  lemma DeletedOneMore(sent: seq<Request>, names: seq<string>, all: set<string>, more: seq<Request>, n: string)
    requires Deleted(sent, names, all) && n !in all && AllDone(more) && Writes(more) == [Unset(A(n), true)]
    ensures Deleted(sent + more, names + [n], all + {n})
  {
    LogsJoin(sent, more);
    EnumeratesOneMore(names, all, n);
    assert (names + [n])[..|names|] == names;
  }

  lemma UpsertedOneMore(sent: seq<Request>, names: seq<string>, all: set<string>, e: Entry, more: seq<Request>, n: string)
    requires Upserted(sent, names, all, e) && n !in all && AllDone(more) && Writes(more) == [Set(A(n), e, true)]
    ensures Upserted(sent + more, names + [n], all + {n}, e)
  {
    LogsJoin(sent, more);
    EnumeratesOneMore(names, all, n);
    assert (names + [n])[..|names|] == names;
  }

  /** A run cut short at a deletion, or at an upsert. */
  lemma CutShort(sent: seq<Request>, more: seq<Request>, writes: seq<Request>, count: nat)
    requires Writes(sent) == writes && |writes| < count && |Writes(more)| <= 1 && !AllDone(more)
    ensures !AllDone(sent + more) && |Writes(sent + more)| <= count
  {
    LogsJoin(sent, more);
  }

  lemma DeletedCount(sent: seq<Request>, names: seq<string>, all: set<string>, surplus: set<string>, n: string)
    requires Deleted(sent, names, all) && n !in all && n in surplus && all <= surplus
    ensures |Unsets(names)| < |surplus|
  {
    EnumeratesMeans(names, all);
    SetsAndUnsetsCount(names, Entry("", 0));
    Fewer(all, surplus, n);
  }

  lemma UpsertedCount(sent: seq<Request>, names: seq<string>, all: set<string>, missing: set<string>, e: Entry, n: string)
    requires Upserted(sent, names, all, e) && n !in all && n in missing && all <= missing
    ensures |Sets(names, e)| < |missing|
  {
    EnumeratesMeans(names, all);
    SetsAndUnsetsCount(names, e);
    Fewer(all, missing, n);
  }

  lemma DeletedAll(sent: seq<Request>, names: seq<string>, all: set<string>)
    requires Deleted(sent, names, all)
    ensures |Writes(sent)| == |all|
  {
    EnumeratesMeans(names, all);
    SetsAndUnsetsCount(names, Entry("", 0));
  }

  lemma UpsertedAll(sent: seq<Request>, names: seq<string>, all: set<string>, e: Entry)
    requires Upserted(sent, names, all, e)
    ensures |Writes(sent)| == |all|
  {
    EnumeratesMeans(names, all);
    SetsAndUnsetsCount(names, e);
  }

  lemma Fewer(some: set<string>, all: set<string>, n: string)
    requires some <= all && n in all && n !in some
    ensures |some| < |all|
  {
    assert all == some + {n} + (all - some - {n});
  }

  /** `sent` holds, reads aside, the deletion of each surplus name and then the upsert of each missing name,
      every one once. */
  ghost predicate Repairs(sent: seq<Request>, deleted: seq<string>, upserted: seq<string>, z: Pointers,
                          want: set<string>, e: Entry) {
    && Writes(sent) == Unsets(deleted) + Sets(upserted, e)
    && Enumerates(deleted, Surplus(z, want, e.content)) && Enumerates(upserted, Missing(z, want, e.content))
  }

  lemma RepairsJoin(deletions: seq<Request>, deleted: seq<string>, upserts: seq<Request>, upserted: seq<string>,
                    z: Pointers, want: set<string>, e: Entry)
    requires Deleted(deletions, deleted, Surplus(z, want, e.content)) && Upserted(upserts, upserted, Missing(z, want, e.content), e)
    ensures Repairs(deletions + upserts, deleted, upserted, z, want, e) && AllDone(deletions + upserts)
  {
    LogsJoin(deletions, upserts);
  }

  lemma RepairsAfterReads(lookups: seq<Request>, sent: seq<Request>, deleted: seq<string>, upserted: seq<string>,
                          z: Pointers, want: set<string>, e: Entry)
    requires AllDone(lookups) && Writes(lookups) == []
    ensures AllDone(lookups + sent) <==> AllDone(sent)
    ensures |Writes(lookups + sent)| == |Writes(sent)|
    ensures Repairs(sent, deleted, upserted, z, want, e) ==> Repairs(lookups + sent, deleted, upserted, z, want, e)
  {
    LogsJoin(lookups, sent);
    assert [] + Writes(sent) == Writes(sent);
  }

  /** So the writes of a run are as many as there are surplus and missing names. */
  lemma RepairsCount(sent: seq<Request>, deleted: seq<string>, upserted: seq<string>, z: Pointers, want: set<string>,
                     e: Entry)
    requires Repairs(sent, deleted, upserted, z, want, e)
    ensures |Writes(sent)| == |Surplus(z, want, e.content)| + |Missing(z, want, e.content)|
  {
    EnumeratesMeans(deleted, Surplus(z, want, e.content));
    EnumeratesMeans(upserted, Missing(z, want, e.content));
    SetsAndUnsetsCount(deleted, e);
    SetsAndUnsetsCount(upserted, e);
  }

  class Manager {
    const provider: Backend
    const baseDomain: string
    const edgeIP: string
    const ttl: int
    /** Where the provider's zone points, and the requests its store has received. */
    ghost var zone: Pointers
    ghost var log: seq<Request>

    ghost predicate Valid()
      reads this, provider.Store()
    {
      && provider.Store() != this && provider.Valid()
      && zone == provider.Pointers() && log == provider.Log()
    }

    constructor (provider: Backend, baseDomain: string, edgeIP: string, ttl: int)
      requires provider.Valid()
      ensures Valid()
      ensures this.provider == provider && this.baseDomain == baseDomain && this.edgeIP == edgeIP && this.ttl == ttl
    {
      this.provider, this.baseDomain, this.edgeIP, this.ttl := provider, baseDomain, edgeIP, ttl;
      zone, log := provider.Pointers(), provider.Log();
      new;
      provider.Undisturbed();
    }

    /** What kinds of object hold a zone. */
    lemma StoreKinds()
      ensures provider.Store() is M.MemoryProvider || provider.Store() is S.ZoneServer
    {
    }

    function Name(slug: string): string {
      slug + "." + baseDomain
    }

    predicate Configured() {
      baseDomain != "" && edgeIP != ""
    }

    /** What the manager's records hold. */
    function Own(): Entry {
      Entry(edgeIP, provider.TtlOf(ttl))
    }

    /** One provider call. */
    method Upsert(name: string) returns (ok: bool, ghost sent: seq<Request>)
      requires Valid()
      modifies this`zone, this`log, provider.Store()
      ensures Valid() && log == old(log) + sent
      ensures S.Wrote(old(zone), zone, old(zone)[A(name) := edgeIP], ok)
      ensures ok == (provider.Usable() && AllDone(sent)) && (provider.Memory? ==> ok)
      ensures !provider.Usable() ==> sent == []
      ensures Writes(sent) == [] || Writes(sent) == [Set(A(name), Own(), ok)]
      ensures Writes(sent) == [] ==> zone == old(zone)
      ensures ok && Writes(sent) == [] ==> Mine(old(zone), edgeIP, A(name))
    {
      ok, sent := provider.Upsert(Record(name, "A", edgeIP, ttl, 0));
      zone, log := provider.Pointers(), provider.Log();
    }

    method Delete(name: string) returns (ok: bool, ghost sent: seq<Request>)
      requires Valid()
      modifies this`zone, this`log, provider.Store()
      ensures Valid() && log == old(log) + sent
      ensures S.Wrote(old(zone), zone, old(zone) - {A(name)}, ok)
      ensures ok == (provider.Usable() && AllDone(sent)) && (provider.Memory? ==> ok)
      ensures !provider.Usable() ==> sent == []
      ensures Writes(sent) == [] || Writes(sent) == [Unset(A(name), ok)]
      ensures Writes(sent) == [] ==> zone == old(zone)
      ensures ok && Writes(sent) == [] ==> A(name) !in old(zone)
    {
      ok, sent := provider.Delete(name, "A");
      zone, log := provider.Pointers(), provider.Log();
    }

    method List() returns (ok: bool, have: seq<Record>, ghost sent: seq<Request>)
      requires Valid()
      modifies this`log, provider.Store()
      ensures Valid() && log == old(log) + sent
      ensures ok ==> ListsPointers(have, zone)
      ensures ok == (provider.Usable() && AllDone(sent)) && (provider.Memory? ==> ok)
      ensures Writes(sent) == [] && (!provider.Usable() ==> sent == [])
    {
      ok, have, sent := provider.List();
      log := provider.Log();
    }

    /** With a slug and a configuration it fails only with a request it sent; otherwise it sends none. */
    method EnsureSlug(slug: string) returns (ok: bool, ghost sent: seq<Request>)
      requires Valid()
      modifies this`zone, this`log, provider.Store()
      ensures Valid() && log == old(log) + sent
      ensures S.Wrote(old(zone), zone, old(zone)[A(Name(slug)) := edgeIP], ok)
      ensures ok == (Configured() && slug != "" && provider.Usable() && AllDone(sent))
      ensures !(Configured() && slug != "" && provider.Usable()) ==> sent == []
      ensures Writes(sent) == [] ==> zone == old(zone)
      ensures Writes(sent) == []
           || Writes(sent) == [Set(A(Name(slug)), Entry(edgeIP, if provider.Cloudflare? && ttl <= 0 then 1 else ttl), ok)]
      ensures provider.Memory? ==> AllDone(sent)
    {
      sent := [];
      if !Configured() || slug == "" {
        return false, sent;
      }
      ok, sent := Upsert(slug + "." + baseDomain);
    }

    method RemoveSlug(slug: string) returns (ok: bool, ghost sent: seq<Request>)
      requires Valid()
      modifies this`zone, this`log, provider.Store()
      ensures Valid() && log == old(log) + sent
      ensures S.Wrote(old(zone), zone, old(zone) - {A(Name(slug))}, ok)
      ensures ok == (Configured() && slug != "" && provider.Usable() && AllDone(sent))
      ensures !(Configured() && slug != "" && provider.Usable()) ==> sent == []
      ensures Writes(sent) == [] ==> zone == old(zone)
      ensures Writes(sent) == [] || Writes(sent) == [Unset(A(Name(slug)), ok)]
      ensures provider.Memory? ==> AllDone(sent)
    {
      sent := [];
      if !Configured() || slug == "" {
        return false, sent;
      }
      ok, sent := Delete(slug + "." + baseDomain);
    }

    /** The names the slugs stand for. */
    function Names(slugs: seq<string>): set<string> {
      set s | s in slugs :: Name(s)
    }

    /** It fails only with a request it sent. A run that succeeds reaches the target and has written each
        surplus name's deletion and then each missing name's upsert, every one once and nothing else; a run
        that fails has left every entry as it was or as it should be, with no more writes than that. */
    method Reconcile(slugs: seq<string>)
      returns (ok: bool, ghost sent: seq<Request>, ghost deleted: seq<string>, ghost upserted: seq<string>)
      requires Valid()
      modifies this`zone, this`log, provider.Store()
      ensures Valid() && log == old(log) + sent
      ensures ok == (Configured() && provider.Usable() && AllDone(sent))
      ensures !(Configured() && provider.Usable()) ==> sent == [] && zone == old(zone)
      ensures provider.Memory? ==> AllDone(sent)
      ensures var z, want := old(zone), Names(slugs);
              var own := Entry(edgeIP, if provider.Cloudflare? && ttl <= 0 then 1 else ttl);
              if ok then
                zone == Target(z, want, edgeIP) && Repairs(sent, deleted, upserted, z, want, own)
              else
                && Between(z, zone, want, edgeIP)
                && |Writes(sent)| <= |Surplus(z, want, edgeIP)| + |Missing(z, want, edgeIP)|
    {
      ghost var z, before := zone, log;
      sent, deleted, upserted := [], [], [];
      ProgressStart(z, edgeIP);
      ProgressBetween(z, Names(slugs), edgeIP, {}, {});
      if !Configured() {
        ok := false;
        return;
      }
      var want := Names(slugs);
      var have;
      ok, have, sent := List();
      if !ok {
        return;
      }
      var mine := OwnNames(have, edgeIP, z);
      ghost var more;
      ok, more, deleted, upserted := Repair(mine, want, z);
      Grouping(before, sent, more);
      RepairsAfterReads(sent, more, deleted, upserted, z, want, Own());
      sent := sent + more;
    }

    /** Surplus first, then what is missing. */
    method Repair(mine: map<string, Record>, want: set<string>, ghost z: Pointers)
      returns (ok: bool, ghost sent: seq<Request>, ghost deleted: seq<string>, ghost upserted: seq<string>)
      requires Valid() && zone == z && provider.Usable()
      requires forall n :: n in mine <==> Mine(z, edgeIP, A(n))
      modifies this`zone, this`log, provider.Store()
      ensures Valid() && log == old(log) + sent
      ensures ok == AllDone(sent) && (provider.Memory? ==> ok)
      ensures ok ==> zone == Target(z, want, edgeIP) && Repairs(sent, deleted, upserted, z, want, Own())
      ensures !ok ==> Between(z, zone, want, edgeIP)
      ensures |Writes(sent)| <= |Surplus(z, want, edgeIP)| + |Missing(z, want, edgeIP)|
    {
      ghost var before, surplus, upserts := log, Surplus(z, want, edgeIP), [];
      upserted := [];
      ProgressStart(z, edgeIP);
      assert surplus == mine.Keys - want;
      ok, sent, deleted := DeleteSurplus(mine, want, z, surplus);
      if !ok {
        return;
      }
      DeletedAll(sent, deleted, surplus);
      ok, upserts, upserted := UpsertMissing(mine, want, z);
      ProgressDone(z, want, edgeIP);
      Grouping(before, sent, upserts);
      LogsJoin(sent, upserts);
      if ok {
        UpsertedAll(upserts, upserted, Missing(z, want, edgeIP), Own());
        RepairsJoin(sent, deleted, upserts, upserted, z, want, Own());
      }
      sent := sent + upserts;
    }

    /** The names of the A records at the edge IP. */
    method OwnNames(have: seq<Record>, ip: string, ghost z: Pointers) returns (mine: map<string, Record>)
      requires ListsPointers(have, z)
      ensures forall n :: n in mine <==> Mine(z, ip, A(n))
    {
      mine := map[];
      for i := 0 to |have|
        invariant forall n :: n in mine ==> Mine(z, ip, A(n))
        invariant forall j :: 0 <= j < i && Mine(z, ip, KeyOf(have[j])) ==> have[j].name in mine
      {
        if have[i].typ == "A" && have[i].content == ip {
          assert have[i] in have && KeyOf(have[i]) == A(have[i].name);
          mine := mine[have[i].name := have[i]];
        }
      }
      forall n | Mine(z, ip, A(n))
        ensures n in mine
      {
        var r :| r in have && KeyOf(r) == A(n);
        var j :| 0 <= j < |have| && have[j] == r;
      }
    }

    method DeleteOne(n: string, ghost want: set<string>, ghost z: Pointers, ghost deleted: set<string>)
      returns (ok: bool, ghost sent: seq<Request>)
      requires Valid() && zone == Progress(z, deleted, {}, edgeIP)
      requires n !in deleted && deleted + {n} <= Surplus(z, want, edgeIP)
      modifies this`zone, this`log, provider.Store()
      ensures Valid() && log == old(log) + sent
      ensures ok ==> zone == Progress(z, deleted + {n}, {}, edgeIP)
      ensures Between(z, zone, want, edgeIP)
      ensures ok == (provider.Usable() && AllDone(sent)) && (provider.Memory? ==> ok) && |Writes(sent)| <= 1
      ensures ok ==> Writes(sent) == [Unset(A(n), true)]
    {
      ProgressDelete(z, deleted, n, edgeIP);
      ProgressBetween(z, want, edgeIP, deleted, {});
      ProgressBetween(z, want, edgeIP, deleted + {n}, {});
      assert A(n) in zone;
      ok, sent := Delete(n);
    }

    method UpsertOne(n: string, ghost want: set<string>, ghost z: Pointers, ghost upserted: set<string>)
      returns (ok: bool, ghost sent: seq<Request>)
      requires Valid() && zone == Progress(z, Surplus(z, want, edgeIP), upserted, edgeIP)
      requires n !in upserted && upserted + {n} <= Missing(z, want, edgeIP)
      modifies this`zone, this`log, provider.Store()
      ensures Valid() && log == old(log) + sent
      ensures ok ==> zone == Progress(z, Surplus(z, want, edgeIP), upserted + {n}, edgeIP)
      ensures Between(z, zone, want, edgeIP)
      ensures ok == (provider.Usable() && AllDone(sent)) && (provider.Memory? ==> ok) && |Writes(sent)| <= 1
      ensures ok ==> Writes(sent) == [Set(A(n), Own(), true)]
    {
      ghost var surplus := Surplus(z, want, edgeIP);
      ProgressUpsert(z, surplus, upserted, n, edgeIP);
      ProgressBetween(z, want, edgeIP, surplus, upserted);
      ProgressBetween(z, want, edgeIP, surplus, upserted + {n});
      assert !Mine(zone, edgeIP, A(n));
      ok, sent := Upsert(n);
    }

    /** The next deletion of a run that has sent `sent` since `before`. */
    method DeleteNext(n: string, ghost want: set<string>, ghost z: Pointers, ghost deleted: set<string>,
                      ghost surplus: set<string>,
                      ghost before: seq<Request>, ghost sent: seq<Request>, ghost names: seq<string>)
      returns (ok: bool, ghost sent': seq<Request>)
      requires Valid() && zone == Progress(z, deleted, {}, edgeIP) && provider.Usable()
      requires surplus == Surplus(z, want, edgeIP) && n in surplus - deleted && deleted <= surplus
      requires log == before + sent && Deleted(sent, names, deleted)
      modifies this`zone, this`log, provider.Store()
      ensures Valid() && log == before + sent' && (provider.Memory? ==> ok)
      ensures ok ==> zone == Progress(z, deleted + {n}, {}, edgeIP) && Deleted(sent', names + [n], deleted + {n})
      ensures !ok ==> && Between(z, zone, want, edgeIP) && !AllDone(sent')
                      && |Writes(sent')| <= |surplus|
    {
      ghost var more;
      ok, more := DeleteOne(n, want, z, deleted);
      Grouping(before, sent, more);
      if ok {
        DeletedOneMore(sent, names, deleted, more, n);
      } else {
        DeletedCount(sent, names, deleted, surplus, n);
        CutShort(sent, more, Unsets(names), |surplus|);
      }
      sent' := sent + more;
    }

    method UpsertNext(n: string, ghost want: set<string>, ghost z: Pointers, ghost upserted: set<string>,
                      ghost before: seq<Request>, ghost sent: seq<Request>, ghost names: seq<string>)
      returns (ok: bool, ghost sent': seq<Request>)
      requires Valid() && zone == Progress(z, Surplus(z, want, edgeIP), upserted, edgeIP) && provider.Usable()
      requires n !in upserted && upserted + {n} <= Missing(z, want, edgeIP)
      requires log == before + sent && Upserted(sent, names, upserted, Own())
      modifies this`zone, this`log, provider.Store()
      ensures Valid() && log == before + sent' && (provider.Memory? ==> ok)
      ensures ok ==> && zone == Progress(z, Surplus(z, want, edgeIP), upserted + {n}, edgeIP)
                     && Upserted(sent', names + [n], upserted + {n}, Own())
      ensures !ok ==> && Between(z, zone, want, edgeIP) && !AllDone(sent')
                      && |Writes(sent')| <= |Missing(z, want, edgeIP)|
    {
      ghost var more;
      ok, more := UpsertOne(n, want, z, upserted);
      Grouping(before, sent, more);
      if ok {
        UpsertedOneMore(sent, names, upserted, Own(), more, n);
      } else {
        UpsertedCount(sent, names, upserted, Missing(z, want, edgeIP), Own(), n);
        CutShort(sent, more, Sets(names, Own()), |Missing(z, want, edgeIP)|);
      }
      sent' := sent + more;
    }

    method DeleteSurplus(mine: map<string, Record>, want: set<string>, ghost z: Pointers, ghost surplus: set<string>)
      returns (ok: bool, ghost sent: seq<Request>, ghost names: seq<string>)
      requires Valid() && zone == Progress(z, {}, {}, edgeIP) && provider.Usable()
      requires surplus == Surplus(z, want, edgeIP) == mine.Keys - want
      modifies this`zone, this`log, provider.Store()
      ensures Valid() && log == old(log) + sent
      ensures provider.Memory? ==> ok
      ensures ok ==> zone == Progress(z, surplus, {}, edgeIP) && Deleted(sent, names, surplus)
      ensures !ok ==> Between(z, zone, want, edgeIP) && !AllDone(sent) && |Writes(sent)| <= |surplus|
    {
      ghost var before, deleted := log, {};
      sent, names := [], [];
      var todo := mine.Keys;
      ok := true;
      while todo != {}
        invariant Valid() && ok && todo <= mine.Keys && deleted == surplus - todo
        invariant log == before + sent && Deleted(sent, names, deleted)
        invariant zone == Progress(z, deleted, {}, edgeIP)
      {
        var n :| n in todo;
        TodoStep(surplus, todo, n);
        todo := todo - {n};
        if n !in want {
          ok, sent := DeleteNext(n, want, z, deleted, surplus, before, sent, names);
          if !ok {
            return;
          }
          names, deleted := names + [n], surplus - todo;
        }
      }
      assert deleted == surplus;
    }

    method UpsertMissing(mine: map<string, Record>, want: set<string>, ghost z: Pointers)
      returns (ok: bool, ghost sent: seq<Request>, ghost names: seq<string>)
      requires Valid() && zone == Progress(z, Surplus(z, want, edgeIP), {}, edgeIP) && provider.Usable()
      requires forall n :: n in mine <==> Mine(z, edgeIP, A(n))
      modifies this`zone, this`log, provider.Store()
      ensures Valid() && log == old(log) + sent
      ensures provider.Memory? ==> ok
      ensures ok ==> && zone == Progress(z, Surplus(z, want, edgeIP), Missing(z, want, edgeIP), edgeIP)
                     && Upserted(sent, names, Missing(z, want, edgeIP), Own())
      ensures !ok ==> && Between(z, zone, want, edgeIP) && !AllDone(sent)
                      && |Writes(sent)| <= |Missing(z, want, edgeIP)|
    {
      ghost var before, surplus, missing, upserted := log, Surplus(z, want, edgeIP), Missing(z, want, edgeIP), {};
      sent, names := [], [];
      var todo := want;
      ok := true;
      while todo != {}
        invariant Valid() && ok && todo <= want && upserted == missing - todo
        invariant log == before + sent && Upserted(sent, names, upserted, Own())
        invariant zone == Progress(z, surplus, upserted, edgeIP)
      {
        var n :| n in todo;
        TodoStep(missing, todo, n);
        todo := todo - {n};
        if n !in mine {
          ok, sent := UpsertNext(n, want, z, upserted, before, sent, names);
          if !ok {
            return;
          }
          names, upserted := names + [n], missing - todo;
        }
      }
      assert upserted == missing;
    }
  }

  /** Taking one name off the list of names to look at. */
  lemma TodoStep(all: set<string>, todo: set<string>, n: string)
    requires n in todo
    ensures n in all ==> all - (todo - {n}) == all - todo + {n}
    ensures n !in all ==> all - (todo - {n}) == all - todo
  {
  }
}
