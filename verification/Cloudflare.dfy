/** The production provider: find, then leave alone, update or create; and a paginated listing. */
module Cloudflare {
  import opened Requests
  import opened Zones
  import opened ZoneServer

  const PAGE_SIZE: nat := 100
  const AUTOMATIC_TTL := 1

  function TtlOrDefault(ttl: int): int {
    if ttl <= 0 then AUTOMATIC_TTL else ttl
  }

  /** Whether an upsert finds nothing to do. */
  predicate UpToDate(z: Zone, r: Record) {
    && KeyOf(r) in z
    && z[KeyOf(r)].content == r.content
    && (z[KeyOf(r)].ttl == TtlOrDefault(r.ttl) || TtlOrDefault(r.ttl) == AUTOMATIC_TTL)
  }

  /** The zone an upsert is to leave. */
  function UpsertTarget(z: Zone, r: Record): Zone {
    if UpToDate(z, r) then z else z[KeyOf(r) := Entry(r.content, TtlOrDefault(r.ttl))]
  }

  // ---------------------------------------------------------------- one call, whatever befalls its requests

  /** What a call leaves, what it reports, and the requests it sends. */
  datatype Outcome = Outcome(entries: Zone, ok: bool, sent: seq<Request>)

  function UpsertOutcome(z: Zone, r: Record, lookup: Fate, write: Fate): Outcome {
    if !lookup.Answered? then Outcome(z, false, [Read(false)])
    else if UpToDate(z, r) then Outcome(z, true, [Read(true)])
    else Outcome(if write.RequestLost? then z else UpsertTarget(z, r), write.Answered?,
                 [Read(true), Set(KeyOf(r), Entry(r.content, TtlOrDefault(r.ttl)), write.Answered?)])
  }

  /** `vanishes`: somebody else removes the record after the lookup. */
  function DeleteOutcome(z: Zone, k: Key, lookup: Fate, vanishes: bool, write: Fate): Outcome {
    if !lookup.Answered? then Outcome(z, false, [Read(false)])
    else if k !in z then Outcome(z, true, [Read(true)])
    else if vanishes then Outcome(z - {k}, false, [Read(true), Unset(k, false)])
    else Outcome(if write.RequestLost? then z else z - {k}, write.Answered?, [Read(true), Unset(k, write.Answered?)])
  }

  /** Whatever becomes of its requests, an upsert touches no other record and fails only with one of them. On
      success the record is there, with the TTL asked for if there was one above the automatic 1; a failure leaves
      that or what was there. It writes exactly when the lookup was answered and found something else. */
  lemma UpsertDoes(z: Zone, r: Record, lookup: Fate, write: Fate)
    ensures var o, k := UpsertOutcome(z, r, lookup, write), KeyOf(r);
            var asked := Entry(r.content, if r.ttl <= 1 then 1 else r.ttl);
            && (o.ok <==> AllDone(o.sent))
            && (o.ok && k in z && z[k].content == r.content && r.ttl <= 1 ==> o.entries == z)
            && (o.ok && !(k in z && z[k].content == r.content && r.ttl <= 1) ==> o.entries == z[k := asked])
            && (!o.ok ==> o.entries == z || o.entries == z[k := asked])
            && (Writes(o.sent) == [] <==>
                  !lookup.Answered? || (k in z && z[k].content == r.content && (r.ttl <= 1 || z[k].ttl == r.ttl)))
  {
    OneRequest(Read(lookup.Answered?));
    ReadThenWrite(Read(true), Set(KeyOf(r), Entry(r.content, TtlOrDefault(r.ttl)), write.Answered?));
    assert KeyOf(r) in z ==> z[KeyOf(r) := z[KeyOf(r)]] == z;
  }

  /** A deletion fails only with one of its requests, and it writes exactly when the lookup found the record. */
  lemma DeleteDoes(z: Zone, k: Key, lookup: Fate, vanishes: bool, write: Fate)
    ensures var o := DeleteOutcome(z, k, lookup, vanishes, write);
            && (o.ok <==> AllDone(o.sent)) && (o.ok ==> o.entries == z - {k})
            && (!o.ok ==> o.entries == z || o.entries == z - {k})
            && (Writes(o.sent) == [] <==> !lookup.Answered? || k !in z)
  {
    OneRequest(Read(lookup.Answered?));
    ReadThenWrite(Read(true), Unset(k, false));
    ReadThenWrite(Read(true), Unset(k, write.Answered?));
    assert k !in z ==> z - {k} == z;
  }

  /** With every request answered a deletion reports success exactly when the record was not there at the
      lookup or was still there at the DELETE. */
  lemma DeletedUnlessVanished(z: Zone, k: Key, vanishes: bool)
    ensures DeleteOutcome(z, k, Answered, vanishes, Answered).ok <==> k !in z || !vanishes
    ensures k !in DeleteOutcome(z, k, Answered, vanishes, Answered).entries
  {
  }

  /** So a deletion of what is already gone can be an error: the record is there at the lookup and gone at
      the DELETE, every request is answered, and the call fails. */
  lemma VanishedRecordIsAnError(name: string)
    ensures var z := map[A(name) := Entry("1.2.3.4", 300)];
            DeleteOutcome(z, A(name), Answered, true, Answered)
              == Outcome(map[], false, [Read(true), Unset(A(name), false)])
  {
  }

  datatype CloudflareProvider = CloudflareProvider(apiToken: string, zoneID: string, baseURL: string, server: ZoneServer) {

    predicate Configured() {
      apiToken != "" && zoneID != "" && baseURL != ""
    }

    method Upsert(r: Record) returns (ok: bool, stored: Record, ghost lookup: Fate, ghost write: Fate)
      requires server.Valid()
      modifies server
      ensures server.Valid()
      ensures !Configured() ==> !ok && unchanged(server)
      ensures Configured() ==>
                var o := UpsertOutcome(old(server.entries), r, lookup, write);
                ok == o.ok && server.entries == o.entries && server.log == old(server.log) + o.sent
      ensures ok ==> stored == r.(id := stored.id) && Has(server.recs, stored.id, KeyOf(r))
    {
      ok, stored, lookup, write := false, r, Answered, Answered;
      if !Configured() {
        return;
      }
      ghost var before := server.log;
      MatchingFinds(server.recs, server.nextID, server.entries, KeyOf(r));
      var found, existing := server.Find(r.name, r.typ);
      lookup := found;
      if !found.Answered? {
        return;
      }
      var body := Record(r.name, r.typ, r.content, TtlOrDefault(r.ttl), 0);
      var fate, got;
      if existing != [] {
        if existing[0].content == body.content && (existing[0].ttl == body.ttl || body.ttl == AUTOMATIC_TTL) {
          return true, r.(id := existing[0].id), lookup, write;
        }
        fate, got := server.Put(existing[0].id, body);
      } else {
        fate, got := server.Post(body);
      }
      Grouping(before, [Read(true)], [Set(KeyOf(r), EntryOf(body), fate.Answered?)]);
      ok, write := fate.Answered?, fate;
      if ok {
        stored := r.(id := got.id);
      }
    }

    method Delete(name: string, typ: string)
      returns (ok: bool, ghost lookup: Fate, ghost vanishes: bool, ghost write: Fate)
      requires server.Valid()
      modifies server
      ensures server.Valid()
      ensures !Configured() ==> !ok && unchanged(server)
      ensures Configured() ==>
                var o := DeleteOutcome(old(server.entries), Key(name, typ), lookup, vanishes, write);
                ok == o.ok && server.entries == o.entries && server.log == old(server.log) + o.sent
    {
      ok, lookup, vanishes, write := false, Answered, false, Answered;
      if !Configured() {
        return;
      }
      ghost var before := server.log;
      MatchingFinds(server.recs, server.nextID, server.entries, Key(name, typ));
      var found, existing := server.Find(name, typ);
      lookup := found;
      if !found.Answered? {
        return;
      }
      if existing == [] {
        return true, lookup, vanishes, write;
      }
      var gone := server.Meanwhile(existing[0].id, Key(name, typ));
      var fate, there := server.DeleteByID(existing[0].id, Key(name, typ));
      ok, vanishes, write := fate.Answered? && there, gone, fate;
      Grouping(before, [Read(true)], [Unset(Key(name, typ), ok)]);
    }

    /** Every record, each exactly once, in one request more than there are full pages; also when the last
        page is full and an empty one has to be fetched to see it. It fails only with a request. */
    method List() returns (ok: bool, out: seq<Record>, ghost pages: nat)
      requires server.Valid()
      modifies server`log
      ensures ok ==> out == server.recs && Lists(out, server.entries)
      ensures !Configured() ==> !ok && server.log == old(server.log)
      ensures Configured() ==> pages > 0 && server.log == old(server.log) + Reads(pages, ok)
      ensures ok ==> pages == |server.recs| / 100 + 1
    {
      out, pages := [], 0;
      if !Configured() {
        return false, [], 0;
      }
      ghost var before := server.log;
      var page := 1;
      while true
        invariant page >= 1 && (page - 1) * PAGE_SIZE <= |server.recs|
        invariant pages == page - 1 && server.log == before + Reads(pages, true)
        invariant out == server.recs[..(page - 1) * PAGE_SIZE]
        decreases |server.recs| - (page - 1) * PAGE_SIZE
      {
        var fate, got := server.Page(page, PAGE_SIZE);
        Grouping(before, Reads(pages, true), [Read(fate.Answered?)]);
        pages := pages + 1;
        if !fate.Answered? {
          return false, [], pages;
        }
        out := out + got;
        if |got| < PAGE_SIZE {
          break;
        }
        page := page + 1;
      }
      ok := true;
    }
  }

  /** So many reads, all answered but perhaps the last. */
  function Reads(n: nat, last: bool): (log: seq<Request>)
    ensures |log| == n
  {
    if n == 0 then [] else Reads(n - 1, true) + [Read(last)]
  }

  lemma {:induction false} ReadsOnly(n: nat, last: bool)
    ensures AllDone(Reads(n, last)) <==> n == 0 || last
    ensures Writes(Reads(n, last)) == []
  {
    if n > 0 {
      ReadsOnly(n - 1, true);
    }
  }

  // ---------------------------------------------------------------- refinement

  datatype Op =
    | Upsert(r: Record)
    | Delete(name: string, typ: string)
    | List

  /** What the in-process provider makes of an operation. */
  function MemoryStep(z: Zone, op: Op): Zone {
    match op
    case Upsert(r) => z[KeyOf(r) := EntryOf(r)]
    case Delete(name, typ) => z - {Key(name, typ)}
    case List => z
  }

  /** What this one makes of it when no request fails. */
  function CloudflareStep(z: Zone, op: Op): Zone {
    match op
    case Upsert(r) => UpsertTarget(z, r)
    case Delete(name, typ) => z - {Key(name, typ)}
    case List => z
  }

  /** A call all of whose requests are answered, with nobody else at the record, is one step and succeeds. */
  lemma AnsweredCallsStep(z: Zone, r: Record, k: Key)
    ensures var o := UpsertOutcome(z, r, Answered, Answered); o.ok && o.entries == CloudflareStep(z, Upsert(r))
    ensures var o := DeleteOutcome(z, k, Answered, false, Answered);
            o.ok && o.entries == CloudflareStep(z, Delete(k.name, k.typ))
  {
    assert k !in z ==> z - {k} == z;
  }

  function MemoryRun(z: Zone, ops: seq<Op>): Zone
    decreases |ops|
  {
    if ops == [] then z else MemoryRun(MemoryStep(z, ops[0]), ops[1..])
  }

  function CloudflareRun(z: Zone, ops: seq<Op>): Zone
    decreases |ops|
  {
    if ops == [] then z else CloudflareRun(CloudflareStep(z, ops[0]), ops[1..])
  }

  /** The same names and types, with the same contents. */
  ghost predicate SameContents(z: Zone, m: Zone) {
    PointersOf(z) == PointersOf(m)
  }

  ghost predicate AsksAutomatic(op: Op) {
    op.Upsert? && TtlOrDefault(op.r.ttl) == AUTOMATIC_TTL
  }

  /** Over every sequence of operations the two providers agree on names, types and contents; and on TTLs
      too as long as no operation asks for the automatic one. */
  lemma {:induction false} ProvidersAgree(z: Zone, m: Zone, ops: seq<Op>)
    requires SameContents(z, m)
    ensures SameContents(CloudflareRun(z, ops), MemoryRun(m, ops))
    ensures z == m && (forall op :: op in ops ==> !AsksAutomatic(op)) ==>
              CloudflareRun(z, ops) == MemoryRun(m, ops)
    decreases |ops|
  {
    if ops != [] {
      var z', m' := CloudflareStep(z, ops[0]), MemoryStep(m, ops[0]);
      StepsAgree(z, m, ops[0]);
      ProvidersAgree(z', m', ops[1..]);
    }
  }

  lemma StepsAgree(z: Zone, m: Zone, op: Op)
    requires SameContents(z, m)
    ensures SameContents(CloudflareStep(z, op), MemoryStep(m, op))
    ensures z == m && !AsksAutomatic(op) ==> CloudflareStep(z, op) == MemoryStep(m, op)
  {
    assert forall k :: k in z <==> k in PointersOf(z);
    assert forall k :: k in m <==> k in PointersOf(m);
    assert forall k :: k in z ==> PointersOf(z)[k] == PointersOf(m)[k];
  }

  /** An automatic TTL is where they part: asked to, the in-process provider changes a TTL that this one
      keeps. */
  lemma AutomaticTtlDiffers()
    ensures var z := map[A("a") := Entry("1.2.3.4", 300)];
            var op := Upsert(Record("a", "A", "1.2.3.4", 0, 0));
            CloudflareStep(z, op)[A("a")].ttl == 300 && MemoryStep(z, op)[A("a")].ttl == 0
  {
  }
}
