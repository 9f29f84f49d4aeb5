/** Two watchers over one repository, one port map and one zone, their ticks interleaved site by site.
    The fates of the outside calls are fixed per site, so runs can be compared. */
module TwoWatchers {
  import opened Zones
  import opened HostNames
  import opened Lifecycle

  /** How far a watcher is through its one tick. */
  datatype Stage = NotStarted | Provisions(todo: set<string>) | Teardowns(todo: set<string>) | Finished

  datatype Action = ListPending | ProvisionSite(id: string) | ListDoomedSites | DeprovisionSite(id: string) | Finish

  datatype Move = First(a: Action) | Second(a: Action)

  /** `done` collects the sites acted on so far. */
  datatype Duo = Duo(world: World, first: Stage, second: Stage, done: set<string>)

  /** One action of one watcher; one that is not possible does nothing. */
  function Act(cfg: Setup, region: string, fates: string -> Fates, w: World, st: Stage, done: set<string>, a: Action)
    : (World, Stage, set<string>)
  {
    match a
    case ListPending =>
      if st.NotStarted? then (w, Provisions(Listed(w.rows, region, Pending)), done) else (w, st, done)
    case ProvisionSite(id) =>
      if st.Provisions? && id in st.todo && id in w.rows then
        (ProvisionStep(cfg, w, id, fates(id)), Provisions(st.todo - {id}), done + {id})
      else (w, st, done)
    case ListDoomedSites =>
      if st == Provisions({}) then (w, Teardowns(Listed(w.rows, region, Deprovisioning)), done) else (w, st, done)
    case DeprovisionSite(id) =>
      if st.Teardowns? && id in st.todo && id in w.rows then
        (DeprovisionStep(cfg, w, id, fates(id)), Teardowns(st.todo - {id}), done + {id})
      else (w, st, done)
    case Finish => if st == Teardowns({}) then (w, Finished, done) else (w, st, done)
  }

  /** The two watchers' regions. */
  datatype Scopes = Scopes(first: string, second: string)

  function Step(cfg: Setup, sc: Scopes, fates: string -> Fates, d: Duo, m: Move): Duo {
    match m
    case First(a) =>
      var (w, st, done) := Act(cfg, sc.first, fates, d.world, d.first, d.done, a);
      Duo(w, st, d.second, done)
    case Second(a) =>
      var (w, st, done) := Act(cfg, sc.second, fates, d.world, d.second, d.done, a);
      Duo(w, d.first, st, done)
  }

  function Run(cfg: Setup, sc: Scopes, fates: string -> Fates, w0: World, moves: seq<Move>): Duo {
    if moves == [] then Duo(w0, NotStarted, NotStarted, {})
    else Step(cfg, sc, fates, Run(cfg, sc, fates, w0, moves[..|moves| - 1]), moves[|moves| - 1])
  }

  // ---------------------------------------------------------------- what acting on a set of sites comes to

  /** What a site comes to when the watcher acts on it once. */
  function Outcome(cfg: Setup, w0: World, id: string, f: Fates): View
    requires id in w0.rows
  {
    var v, slug := ViewOf(cfg, w0, id), w0.rows[id].slug;
    match v.status
    case Pending => ProvisionView(cfg, slug, v, f)
    case Deprovisioning => DeprovisionView(cfg, slug, v, f)
    case _ => v
  }

  /** Every site of `done` has come to its outcome, and nothing else has changed. */
  ghost predicate Reached(cfg: Setup, w0: World, w: World, done: set<string>, fates: string -> Fates) {
    && w.rows.Keys == w0.rows.Keys
    && (forall id :: id in w0.rows ==>
          && w.rows[id] == w0.rows[id].(status := w.rows[id].status)
          && ViewOf(cfg, w, id) == if id in done then Outcome(cfg, w0, id, fates(id)) else ViewOf(cfg, w0, id))
    && (forall s :: s !in SlugsOf(w0.rows) ==>
          (s in w.ports <==> s in w0.ports) && (s in w.containers <==> s in w0.containers))
    && (forall k: Key :: k !in HostKeys(cfg, SlugsOf(w0.rows)) ==> SameAt(w.zone, w0.zone, k))
  }

  /** That settles the whole world. */
  lemma ReachedIsUnique(cfg: Setup, w0: World, w1: World, w2: World, done: set<string>, fates: string -> Fates)
    requires Reached(cfg, w0, w1, done, fates) && Reached(cfg, w0, w2, done, fates)
    ensures w1 == w2
  {
    assert w1.rows == w2.rows by {
      forall id | id in w0.rows
        ensures w1.rows[id] == w2.rows[id]
      {
        assert ViewOf(cfg, w1, id).status == ViewOf(cfg, w2, id).status;
      }
    }
    forall s
      ensures s in w1.ports <==> s in w2.ports
      ensures s in w1.containers <==> s in w2.containers
    {
      if s in SlugsOf(w0.rows) {
        var id :| id in w0.rows && w0.rows[id].slug == s;
        assert ViewOf(cfg, w1, id) == ViewOf(cfg, w2, id);
      }
    }
    forall k: Key
      ensures SameAt(w1.zone, w2.zone, k)
    {
      if k in HostKeys(cfg, SlugsOf(w0.rows)) {
        var id :| id in w0.rows && A(TenantHost(w0.rows[id].slug, cfg.base)) == k;
        assert ViewOf(cfg, w1, id).pointer == ViewOf(cfg, w2, id).pointer;
      }
    }
    SameEverywhere(w1.zone, w2.zone);
  }

  lemma ReachedStep(cfg: Setup, w0: World, w: World, w': World, done: set<string>, fates: string -> Fates, id: string)
    requires UniqueSlugs(w0.rows) && Reached(cfg, w0, w, done, fates) && id in w0.rows
    requires OnlySite(cfg, w, w', id) && ViewOf(cfg, w', id) == Outcome(cfg, w0, id, fates(id))
    ensures Reached(cfg, w0, w', done + {id}, fates)
  {
    assert UniqueSlugs(w.rows) by {
      forall i, j | i in w.rows && j in w.rows && i != j
        ensures w.rows[i].slug != w.rows[j].slug
      {
        assert w0.rows[i].slug != w0.rows[j].slug;
      }
    }
    forall j | j in w0.rows && j != id
      ensures ViewOf(cfg, w', j) == ViewOf(cfg, w, j) && w'.rows[j] == w.rows[j]
    {
      OthersUnaffected(cfg, w, w', id, j);
    }
    var slug := w0.rows[id].slug;
    assert slug in SlugsOf(w0.rows) && w.rows[id].slug == slug;
    assert cfg.Dns? ==> A(TenantHost(slug, cfg.base)) in HostKeys(cfg, SlugsOf(w0.rows));
    forall k: Key | k !in HostKeys(cfg, SlugsOf(w0.rows))
      ensures SameAt(w'.zone, w0.zone, k)
    {
      assert SameAt(w.zone, w0.zone, k) && SameAt(w'.zone, w.zone, k);
    }
  }

  // ---------------------------------------------------------------- the invariant of an interleaving

  function Claimed(w0: World, region: string): set<string> {
    Listed(w0.rows, region, Pending) + Listed(w0.rows, region, Deprovisioning)
  }

  /** Different, non-empty regions: no site belongs to both watchers. */
  predicate Separate(sc: Scopes) {
    sc.first != "" && sc.second != "" && sc.first != sc.second
  }

  ghost predicate AllWell(fates: string -> Fates) {
    forall id :: fates(id) == ALL_WELL
  }

  lemma SeparateClaims(w0: World, sc: Scopes)
    requires Separate(sc)
    ensures Claimed(w0, sc.first) !! Claimed(w0, sc.second)
  {
  }

  /** What a watcher at a stage has seen to. With `exclusive`, nobody else sees to its sites. */
  ghost predicate StageOk(w0: World, region: string, st: Stage, done: set<string>, exclusive: bool) {
    var pending, doomed := Listed(w0.rows, region, Pending), Listed(w0.rows, region, Deprovisioning);
    match st
    case NotStarted => exclusive ==> done !! Claimed(w0, region)
    case Provisions(todo) =>
      && todo <= pending <= todo + done
      && (exclusive ==> done !! todo + doomed)
    case Teardowns(todo) =>
      && pending <= done && todo <= doomed <= todo + done
      && (exclusive ==> done !! todo)
    case Finished => Claimed(w0, region) <= done
  }

  /** The invariant from one watcher's side. */
  ghost predicate PairInv(cfg: Setup, mine: string, theirs: string, fates: string -> Fates, w0: World,
                          w: World, st: Stage, other: Stage, done: set<string>) {
    Reached(cfg, w0, w, done, fates) && StagesOk(w0, mine, theirs, st, other, done)
  }

  ghost predicate StagesOk(w0: World, mine: string, theirs: string, st: Stage, other: Stage, done: set<string>) {
    && StageOk(w0, mine, st, done, Separate(Scopes(mine, theirs)))
    && StageOk(w0, theirs, other, done, Separate(Scopes(mine, theirs)))
    && done <= (if st.NotStarted? then {} else Claimed(w0, mine)) + (if other.NotStarted? then {} else Claimed(w0, theirs))
  }

  ghost predicate DuoInv(cfg: Setup, sc: Scopes, fates: string -> Fates, w0: World, d: Duo) {
    PairInv(cfg, sc.first, sc.second, fates, w0, d.world, d.first, d.second, d.done)
  }

  /** Acting again on a site when everything goes well changes nothing. */
  lemma ActingTwice(cfg: Setup, w0: World, id: string)
    requires id in w0.rows
    ensures w0.rows[id].status.Pending? ==>
              var v := Outcome(cfg, w0, id, ALL_WELL); ProvisionView(cfg, w0.rows[id].slug, v, ALL_WELL) == v
    ensures w0.rows[id].status.Deprovisioning? ==>
              var v := Outcome(cfg, w0, id, ALL_WELL); DeprovisionView(cfg, w0.rows[id].slug, v, ALL_WELL) == v
    ensures w0.rows[id].status.Pending? || w0.rows[id].status.Deprovisioning? ==>
              !Outcome(cfg, w0, id, ALL_WELL).status.Pending? && !Outcome(cfg, w0, id, ALL_WELL).status.Deprovisioning?
  {
  }

  /** A listing, taken at whatever moment, names only sites that were so from the start, and all of those
      that have not been seen to. */
  lemma ListingIsCurrent(cfg: Setup, w0: World, w: World, region: string, status: Status, done: set<string>,
                         fates: string -> Fates, exclusive: bool)
    requires Reached(cfg, w0, w, done, fates) && (status.Pending? || status.Deprovisioning?)
    requires forall id :: id in done ==> id in w0.rows && (w0.rows[id].status.Pending? || w0.rows[id].status.Deprovisioning?)
    requires if exclusive then done !! Listed(w0.rows, region, status) else AllWell(fates)
    requires exclusive ==> forall id :: id in done && Owns(region, w0.rows[id]) ==> w0.rows[id].status.Pending? && status.Deprovisioning?
    ensures Listed(w.rows, region, status) <= Listed(w0.rows, region, status)
    ensures Listed(w0.rows, region, status) <= Listed(w.rows, region, status) + done
    ensures exclusive ==> done !! Listed(w.rows, region, status)
  {
    forall id | id in w0.rows
      ensures id !in done ==> w.rows[id] == w0.rows[id]
      ensures id in Listed(w.rows, region, status) ==> id !in done
    {
      assert ViewOf(cfg, w, id).status == w.rows[id].status;
      if id in done && !exclusive {
        assert fates(id) == ALL_WELL;
        ActingTwice(cfg, w0, id);
      }
    }
  }

  /** The view a site has just before a watcher that listed it acts on it, and just after. */
  lemma ActsOnce(cfg: Setup, w0: World, w: World, done: set<string>, fates: string -> Fates, id: string, exclusive: bool)
    requires UniqueSlugs(w0.rows) && Reached(cfg, w0, w, done, fates) && id in w0.rows
    requires if exclusive then id !in done else AllWell(fates)
    ensures w0.rows[id].status.Pending? ==>
              Reached(cfg, w0, ProvisionStep(cfg, w, id, fates(id)), done + {id}, fates)
    ensures w0.rows[id].status.Deprovisioning? ==>
              Reached(cfg, w0, DeprovisionStep(cfg, w, id, fates(id)), done + {id}, fates)
  {
    if id in done {
      assert fates(id) == ALL_WELL;
      ActingTwice(cfg, w0, id);
    }
    if w0.rows[id].status.Pending? {
      ProvisionIsLocal(cfg, w, id, fates(id));
      ReachedStep(cfg, w0, w, ProvisionStep(cfg, w, id, fates(id)), done, fates, id);
    }
    if w0.rows[id].status.Deprovisioning? {
      DeprovisionIsLocal(cfg, w, id, fates(id));
      ReachedStep(cfg, w0, w, DeprovisionStep(cfg, w, id, fates(id)), done, fates, id);
    }
  }

  lemma ListPendingKeepsInv(cfg: Setup, mine: string, theirs: string, fates: string -> Fates, w0: World,
                            w: World, other: Stage, done: set<string>)
    requires Separate(Scopes(mine, theirs)) || AllWell(fates)
    requires PairInv(cfg, mine, theirs, fates, w0, w, NotStarted, other, done)
    ensures PairInv(cfg, mine, theirs, fates, w0, w, Provisions(Listed(w.rows, mine, Pending)), other, done)
  {
    var exclusive := Separate(Scopes(mine, theirs));
    ListingIsCurrent(cfg, w0, w, mine, Pending, done, fates, exclusive);
    if exclusive {
      SeparateClaims(w0, Scopes(mine, theirs));
    }
  }

  lemma ListDoomedKeepsInv(cfg: Setup, mine: string, theirs: string, fates: string -> Fates, w0: World,
                           w: World, other: Stage, done: set<string>)
    requires Separate(Scopes(mine, theirs)) || AllWell(fates)
    requires PairInv(cfg, mine, theirs, fates, w0, w, Provisions({}), other, done)
    ensures PairInv(cfg, mine, theirs, fates, w0, w, Teardowns(Listed(w.rows, mine, Deprovisioning)), other, done)
  {
    var exclusive := Separate(Scopes(mine, theirs));
    if exclusive {
      SeparateClaims(w0, Scopes(mine, theirs));
    }
    ListingIsCurrent(cfg, w0, w, mine, Deprovisioning, done, fates, exclusive);
  }

  /** What another watcher does to a site of its own is no concern of this one. */
  lemma OtherStageKept(w0: World, region: string, st: Stage, done: set<string>, id: string, exclusive: bool)
    requires StageOk(w0, region, st, done, exclusive)
    requires exclusive ==> id !in Claimed(w0, region)
    ensures StageOk(w0, region, st, done + {id}, exclusive)
  {
  }

  predicate AtWork(st: Stage, id: string) {
    (st.Provisions? || st.Teardowns?) && id in st.todo
  }

  function AfterSite(st: Stage, id: string): Stage
    requires AtWork(st, id)
  {
    if st.Provisions? then Provisions(st.todo - {id}) else Teardowns(st.todo - {id})
  }

  lemma SiteActKeepsStages(w0: World, mine: string, theirs: string, st: Stage, other: Stage, done: set<string>, id: string)
    requires StagesOk(w0, mine, theirs, st, other, done) && AtWork(st, id)
    ensures StagesOk(w0, mine, theirs, AfterSite(st, id), other, done + {id})
  {
    var exclusive := Separate(Scopes(mine, theirs));
    assert id in Claimed(w0, mine);
    if exclusive {
      SeparateClaims(w0, Scopes(mine, theirs));
    }
    OtherStageKept(w0, theirs, other, done, id, exclusive);
  }

  lemma SiteActKeepsInv(cfg: Setup, mine: string, theirs: string, fates: string -> Fates, w0: World,
                        w: World, st: Stage, other: Stage, done: set<string>, id: string)
    requires UniqueSlugs(w0.rows) && (Separate(Scopes(mine, theirs)) || AllWell(fates))
    requires PairInv(cfg, mine, theirs, fates, w0, w, st, other, done) && AtWork(st, id)
    ensures st.Provisions? ==>
              PairInv(cfg, mine, theirs, fates, w0, ProvisionStep(cfg, w, id, fates(id)), AfterSite(st, id), other, done + {id})
    ensures st.Teardowns? ==>
              PairInv(cfg, mine, theirs, fates, w0, DeprovisionStep(cfg, w, id, fates(id)), AfterSite(st, id), other, done + {id})
  {
    SiteActKeepsStages(w0, mine, theirs, st, other, done, id);
    ActsOnce(cfg, w0, w, done, fates, id, Separate(Scopes(mine, theirs)));
  }

  /** One watcher's action keeps the invariant. */
  lemma ActKeepsInv(cfg: Setup, mine: string, theirs: string, fates: string -> Fates, w0: World,
                    w: World, st: Stage, other: Stage, done: set<string>, a: Action)
    requires UniqueSlugs(w0.rows) && (Separate(Scopes(mine, theirs)) || AllWell(fates))
    requires PairInv(cfg, mine, theirs, fates, w0, w, st, other, done)
    ensures var (w', st', done') := Act(cfg, mine, fates, w, st, done, a);
            PairInv(cfg, mine, theirs, fates, w0, w', st', other, done')
  {
    match a
    case ListPending =>
      if st.NotStarted? {
        ListPendingKeepsInv(cfg, mine, theirs, fates, w0, w, other, done);
      }
    case ListDoomedSites =>
      if st == Provisions({}) {
        ListDoomedKeepsInv(cfg, mine, theirs, fates, w0, w, other, done);
      }
    case ProvisionSite(id) =>
      if st.Provisions? && id in st.todo {
        SiteActKeepsInv(cfg, mine, theirs, fates, w0, w, st, other, done, id);
      }
    case DeprovisionSite(id) =>
      if st.Teardowns? && id in st.todo {
        SiteActKeepsInv(cfg, mine, theirs, fates, w0, w, st, other, done, id);
      }
    case Finish =>
  }

  lemma {:induction false} RunKeepsInv(cfg: Setup, sc: Scopes, fates: string -> Fates, w0: World, moves: seq<Move>)
    requires UniqueSlugs(w0.rows) && (Separate(sc) || AllWell(fates))
    ensures DuoInv(cfg, sc, fates, w0, Run(cfg, sc, fates, w0, moves))
  {
    if moves != [] {
      RunKeepsInv(cfg, sc, fates, w0, moves[..|moves| - 1]);
      var d, m := Run(cfg, sc, fates, w0, moves[..|moves| - 1]), moves[|moves| - 1];
      match m
      case First(a) => ActKeepsInv(cfg, sc.first, sc.second, fates, w0, d.world, d.first, d.second, d.done, a);
      case Second(a) => ActKeepsInv(cfg, sc.second, sc.first, fates, w0, d.world, d.second, d.first, d.done, a);
    }
  }

  // ---------------------------------------------------------------- the theorems

  predicate BothFinished(d: Duo) {
    d.first.Finished? && d.second.Finished?
  }

  /** Every interleaving in which both watchers finish brings every claimed site to its outcome and
      changes nothing else. */
  lemma InterleavingResult(cfg: Setup, sc: Scopes, fates: string -> Fates, w0: World, moves: seq<Move>)
    requires UniqueSlugs(w0.rows) && (Separate(sc) || AllWell(fates))
    requires BothFinished(Run(cfg, sc, fates, w0, moves))
    ensures Reached(cfg, w0, Run(cfg, sc, fates, w0, moves).world, Claimed(w0, sc.first) + Claimed(w0, sc.second), fates)
  {
    RunKeepsInv(cfg, sc, fates, w0, moves);
    assert Run(cfg, sc, fates, w0, moves).done == Claimed(w0, sc.first) + Claimed(w0, sc.second);
  }

  /** Watchers of different regions, whatever fails: all complete interleavings, and so both orders of the
      two whole ticks, end in the same world. The same goes for any two watchers when nothing fails. */
  lemma InterleavingsAgree(cfg: Setup, sc: Scopes, fates: string -> Fates, w0: World, moves1: seq<Move>, moves2: seq<Move>)
    requires UniqueSlugs(w0.rows) && (Separate(sc) || AllWell(fates))
    requires BothFinished(Run(cfg, sc, fates, w0, moves1)) && BothFinished(Run(cfg, sc, fates, w0, moves2))
    ensures Run(cfg, sc, fates, w0, moves1).world == Run(cfg, sc, fates, w0, moves2).world
  {
    InterleavingResult(cfg, sc, fates, w0, moves1);
    InterleavingResult(cfg, sc, fates, w0, moves2);
    ReachedIsUnique(cfg, w0, Run(cfg, sc, fates, w0, moves1).world, Run(cfg, sc, fates, w0, moves2).world,
                    Claimed(w0, sc.first) + Claimed(w0, sc.second), fates);
  }

  /** Running a second watcher of the same scope is safe: when nothing fails, any complete interleaving of
      the two ends where one watcher's tick alone ends. */
  lemma SecondWatcherIsHarmless(cfg: Setup, region: string, w0: World, fates: string -> Fates, duo: seq<Move>, solo: seq<Move>)
    requires UniqueSlugs(w0.rows) && AllWell(fates)
    requires BothFinished(Run(cfg, Scopes(region, region), fates, w0, duo))
    requires var d := Run(cfg, Scopes(region, region), fates, w0, solo); d.first.Finished? && d.second.NotStarted?
    ensures Run(cfg, Scopes(region, region), fates, w0, duo).world == Run(cfg, Scopes(region, region), fates, w0, solo).world
  {
    var sc := Scopes(region, region);
    RunKeepsInv(cfg, sc, fates, w0, duo);
    RunKeepsInv(cfg, sc, fates, w0, solo);
    var d, s := Run(cfg, sc, fates, w0, duo), Run(cfg, sc, fates, w0, solo);
    assert d.done == s.done;
    ReachedIsUnique(cfg, w0, d.world, s.world, d.done, fates);
  }

  // ---------------------------------------------------------------- complete interleavings exist

  function StageOf(d: Duo, one: bool): Stage {
    if one then d.first else d.second
  }

  function MoveOf(one: bool, a: Action): Move {
    if one then First(a) else Second(a)
  }

  lemma RunOneMore(cfg: Setup, sc: Scopes, fates: string -> Fates, w0: World, moves: seq<Move>, m: Move)
    ensures Run(cfg, sc, fates, w0, moves + [m]) == Step(cfg, sc, fates, Run(cfg, sc, fates, w0, moves), m)
  {
    assert (moves + [m])[..|moves|] == moves;
  }

  /** A watcher can come to every site it has listed. */
  lemma {:induction false} ComesToAll(cfg: Setup, sc: Scopes, fates: string -> Fates, w0: World, moves: seq<Move>, one: bool)
    returns (moves': seq<Move>)
    requires UniqueSlugs(w0.rows) && (Separate(sc) || AllWell(fates))
    requires var st := StageOf(Run(cfg, sc, fates, w0, moves), one); st.Provisions? || st.Teardowns?
    ensures var d, d' := Run(cfg, sc, fates, w0, moves), Run(cfg, sc, fates, w0, moves');
            && StageOf(d', !one) == StageOf(d, !one)
            && StageOf(d', one) == if StageOf(d, one).Provisions? then Provisions({}) else Teardowns({})
    decreases StageOf(Run(cfg, sc, fates, w0, moves), one).todo
  {
    var d := Run(cfg, sc, fates, w0, moves);
    var st := StageOf(d, one);
    moves' := moves;
    if st.todo != {} {
      var id :| id in st.todo;
      var a := if st.Provisions? then ProvisionSite(id) else DeprovisionSite(id);
      assert id in d.world.rows by {
        RunKeepsInv(cfg, sc, fates, w0, moves);
      }
      RunOneMore(cfg, sc, fates, w0, moves, MoveOf(one, a));
      moves' := ComesToAll(cfg, sc, fates, w0, moves + [MoveOf(one, a)], one);
    }
  }

  /** From wherever the other watcher is, a watcher that has not started can go through its whole tick. */
  lemma TicksThrough(cfg: Setup, sc: Scopes, fates: string -> Fates, w0: World, moves: seq<Move>, one: bool)
    returns (moves': seq<Move>)
    requires UniqueSlugs(w0.rows) && (Separate(sc) || AllWell(fates))
    requires StageOf(Run(cfg, sc, fates, w0, moves), one).NotStarted?
    ensures StageOf(Run(cfg, sc, fates, w0, moves'), one).Finished?
    ensures StageOf(Run(cfg, sc, fates, w0, moves'), !one) == StageOf(Run(cfg, sc, fates, w0, moves), !one)
  {
    RunOneMore(cfg, sc, fates, w0, moves, MoveOf(one, ListPending));
    moves' := ComesToAll(cfg, sc, fates, w0, moves + [MoveOf(one, ListPending)], one);
    RunOneMore(cfg, sc, fates, w0, moves', MoveOf(one, ListDoomedSites));
    moves' := ComesToAll(cfg, sc, fates, w0, moves' + [MoveOf(one, ListDoomedSites)], one);
    RunOneMore(cfg, sc, fates, w0, moves', MoveOf(one, Finish));
    moves' := moves' + [MoveOf(one, Finish)];
  }

  /** So there are interleavings in which both finish, and runs in which just one does. */
  lemma BothCanFinish(cfg: Setup, sc: Scopes, fates: string -> Fates, w0: World) returns (solo: seq<Move>, duo: seq<Move>)
    requires UniqueSlugs(w0.rows) && (Separate(sc) || AllWell(fates))
    ensures Run(cfg, sc, fates, w0, solo).first.Finished? && Run(cfg, sc, fates, w0, solo).second.NotStarted?
    ensures BothFinished(Run(cfg, sc, fates, w0, duo))
  {
    solo := TicksThrough(cfg, sc, fates, w0, [], true);
    duo := TicksThrough(cfg, sc, fates, w0, solo, false);
  }

  /** With an operator at work as well it is not: a second watcher that still holds an old listing brings
      a site back that the first one has torn down since, and if its own update fails the row keeps saying
      Stopped while the edge routes to a running container. */
  lemma StaleSecondWatcher(id: string, slug: string)
    ensures var w0 := World(map[id := Row(slug, "", Pending)], {}, {}, map[]);
            var listed := Listed(w0.rows, "", Pending);
            var up := ProvisionStep(NoDns, w0, id, ALL_WELL);
            var down := DeprovisionStep(NoDns, SetStatus(up, id, Deprovisioning), id, ALL_WELL);
            var late := ProvisionStep(NoDns, down, id, ALL_WELL.(update := Refused));
            && id in listed && down.rows[id].status == Stopped
            && late.rows[id].status == Stopped && slug in late.ports && slug in late.containers
  {
  }
}
