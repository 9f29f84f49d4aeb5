/** The life-cycle machine keeps going: a tick is a run of it, however its calls end, and a tick in which they all
    succeed brings up what operators want up and takes down what they want down. */
module TickRuns {
  import opened HostNames
  import opened Lifecycle
  import opened Requests
  import opened Zones
  import T = TwoWatchers

  /** The machine from a state onwards. */
  function RunFrom(cfg: Setup, region: string, s: System, events: seq<Event>): System {
    if events == [] then s
    else Step(cfg, region, RunFrom(cfg, region, s, events[..|events| - 1]), events[|events| - 1])
  }

  lemma RunOneMore(cfg: Setup, region: string, s: System, events: seq<Event>, e: Event)
    ensures RunFrom(cfg, region, s, events + [e]) == Step(cfg, region, RunFrom(cfg, region, s, events), e)
  {
    assert (events + [e])[..|events|] == events;
  }

  lemma {:induction false} RunOn(cfg: Setup, region: string, s: System, events: seq<Event>, more: seq<Event>)
    ensures RunFrom(cfg, region, s, events + more) == RunFrom(cfg, region, RunFrom(cfg, region, s, events), more)
  {
    if more == [] {
      assert events + more == events;
    } else {
      var n := |more| - 1;
      RunOn(cfg, region, s, events, more[..n]);
      assert (events + more)[..|events + more| - 1] == events + more[..n];
    }
  }

  lemma {:induction false} RunIsFromEmpty(cfg: Setup, region: string, events: seq<Event>)
    ensures Run(cfg, region, events) == RunFrom(cfg, region, EMPTY, events)
  {
    if events != [] {
      RunIsFromEmpty(cfg, region, events[..|events| - 1]);
    }
  }

  // ---------------------------------------------------------------- a tick

  /** The watcher's event on each of the sites, in order: provisioning if `up`, else teardown. */
  function SiteEvent(up: bool, id: string, f: Fates): Event {
    if up then Event.Provision(id, f) else Event.Deprovision(id, f)
  }

  function SiteEvents(up: bool, ids: seq<string>, fates: string -> Fates): seq<Event> {
    if ids == [] then []
    else
      var id := ids[|ids| - 1];
      SiteEvents(up, ids[..|ids| - 1], fates) + [SiteEvent(up, id, fates(id))]
  }

  /** The events of a tick that acts on the given sites in the given order. */
  function TickEvents(first: seq<string>, second: seq<string>, fates: string -> Fates): seq<Event> {
    (([BeginTick(true)] + SiteEvents(true, first, fates)) + [ListDoomed(true)]) + (SiteEvents(false, second, fates) + [EndTick])
  }

  function Act(cfg: Setup, up: bool, w: World, id: string, f: Fates): (w': World)
    ensures w'.rows.Keys == w.rows.Keys
  {
    if id !in w.rows then w else if up then ProvisionStep(cfg, w, id, f) else DeprovisionStep(cfg, w, id, f)
  }

  /** Acting on one site after another. */
  function ActOn(cfg: Setup, up: bool, w: World, ids: seq<string>, fates: string -> Fates): (w': World)
    ensures w'.rows.Keys == w.rows.Keys
  {
    if ids == [] then w
    else Act(cfg, up, ActOn(cfg, up, w, ids[..|ids| - 1], fates), ids[|ids| - 1], fates(ids[|ids| - 1]))
  }

  function InPhase(up: bool, todo: set<string>): Phase {
    if up then Draining(todo) else TearingDown(todo)
  }

  lemma MachineActsOnce(cfg: Setup, region: string, up: bool, w: World, all: set<string>, done: set<string>, id: string, f: Fates)
    requires id in done && done <= all && id in w.rows
    ensures Step(cfg, region, System(w, InPhase(up, all - (done - {id}))), SiteEvent(up, id, f))
         == System(Act(cfg, up, w, id, f), InPhase(up, all - done))
  {
    assert all - (done - {id}) - {id} == all - done;
  }

  /** In the right phase the machine takes the steps. */
  lemma {:induction false} MachineActs(cfg: Setup, region: string, up: bool, w: World, all: set<string>, ids: seq<string>,
                                       done: set<string>, fates: string -> Fates)
    requires Enumerates(ids, done) && done <= all <= w.rows.Keys
    ensures RunFrom(cfg, region, System(w, InPhase(up, all)), SiteEvents(up, ids, fates))
         == System(ActOn(cfg, up, w, ids, fates), InPhase(up, all - done))
    decreases |ids|
  {
    if ids == [] {
      assert all - done == all;
    } else {
      var front, id := ids[..|ids| - 1], ids[|ids| - 1];
      MachineActs(cfg, region, up, w, all, front, done - {id}, fates);
      MachineActsOnce(cfg, region, up, ActOn(cfg, up, w, front, fates), all, done, id, fates(id));
      RunOneMore(cfg, region, System(w, InPhase(up, all)), SiteEvents(up, front, fates), SiteEvent(up, id, fates(id)));
    }
  }

  ghost predicate AllAre(rows: map<string, Row>, ids: set<string>, status: Status) {
    forall id :: id in ids ==> id in rows && rows[id].status == status
  }

  /** Acting on untouched sites of the right status brings each to its outcome. */
  lemma {:induction false} ActOnReaches(cfg: Setup, up: bool, w0: World, w: World, before: set<string>, ids: seq<string>,
                                        done: set<string>, fates: string -> Fates)
    requires UniqueSlugs(w0.rows) && T.Reached(cfg, w0, w, before, fates) && before !! done && Enumerates(ids, done)
    requires AllAre(w0.rows, done, if up then Pending else Deprovisioning)
    ensures T.Reached(cfg, w0, ActOn(cfg, up, w, ids, fates), before + done, fates)
    decreases |ids|
  {
    if ids == [] {
      assert before + done == before;
    } else {
      var front, id := ids[..|ids| - 1], ids[|ids| - 1];
      ActOnReaches(cfg, up, w0, w, before, front, done - {id}, fates);
      ActReaches(cfg, up, w0, ActOn(cfg, up, w, front, fates), before, done, id, fates);
    }
  }

  lemma ActReaches(cfg: Setup, up: bool, w0: World, w: World, before: set<string>, done: set<string>, id: string,
                   fates: string -> Fates)
    requires UniqueSlugs(w0.rows) && T.Reached(cfg, w0, w, before + (done - {id}), fates)
    requires id in done && id !in before && id in w0.rows && w0.rows[id].status == if up then Pending else Deprovisioning
    ensures T.Reached(cfg, w0, Act(cfg, up, w, id, fates(id)), before + done, fates)
  {
    assert before + (done - {id}) + {id} == before + done;
    T.ActsOnce(cfg, w0, w, before + (done - {id}), fates, id, true);
  }

  /** The world a tick leaves. */
  function AfterTick(cfg: Setup, w: World, first: seq<string>, second: seq<string>, fates: string -> Fates): World {
    ActOn(cfg, false, ActOn(cfg, true, w, first, fates), second, fates)
  }

  /** From any world with unique slugs a tick is a run that ends idle, with every owned Pending and Deprovisioning
      site at the outcome of its fates and everything else as it was. */
  lemma TickIsRun(cfg: Setup, region: string, w0: World, first: seq<string>, second: seq<string>, fates: string -> Fates)
    requires UniqueSlugs(w0.rows)
    requires Enumerates(first, Listed(w0.rows, region, Pending)) && Enumerates(second, Listed(w0.rows, region, Deprovisioning))
    ensures var s := RunFrom(cfg, region, System(w0, Idle), TickEvents(first, second, fates));
            s.phase.Idle? && T.Reached(cfg, w0, s.world, T.Claimed(w0, region), fates)
  {
    var pending, doomed := Listed(w0.rows, region, Pending), Listed(w0.rows, region, Deprovisioning);
    var w1 := ActOn(cfg, true, w0, first, fates);
    HalfReaches(cfg, region, w0, first, fates);
    TickRun(cfg, region, w0, first, second, fates);
    ActOnReaches(cfg, false, w0, w1, pending, second, doomed, fates);
  }

  lemma HalfReaches(cfg: Setup, region: string, w0: World, first: seq<string>, fates: string -> Fates)
    requires UniqueSlugs(w0.rows) && Enumerates(first, Listed(w0.rows, region, Pending))
    ensures var w1 := ActOn(cfg, true, w0, first, fates);
            && T.Reached(cfg, w0, w1, Listed(w0.rows, region, Pending), fates)
            && Listed(w1.rows, region, Deprovisioning) == Listed(w0.rows, region, Deprovisioning)
  {
    FirstReaches(cfg, region, w0, first, fates);
    ListingStands(cfg, region, w0, ActOn(cfg, true, w0, first, fates), fates);
  }

  lemma FirstReaches(cfg: Setup, region: string, w0: World, first: seq<string>, fates: string -> Fates)
    requires UniqueSlugs(w0.rows) && Enumerates(first, Listed(w0.rows, region, Pending))
    ensures T.Reached(cfg, w0, ActOn(cfg, true, w0, first, fates), Listed(w0.rows, region, Pending), fates)
  {
    assert {} + Listed(w0.rows, region, Pending) == Listed(w0.rows, region, Pending);
    assert T.Reached(cfg, w0, w0, {}, fates);
    ActOnReaches(cfg, true, w0, w0, {}, first, Listed(w0.rows, region, Pending), fates);
  }

  lemma ListingStands(cfg: Setup, region: string, w0: World, w1: World, fates: string -> Fates)
    requires T.Reached(cfg, w0, w1, Listed(w0.rows, region, Pending), fates)
    ensures Listed(w1.rows, region, Deprovisioning) == Listed(w0.rows, region, Deprovisioning)
  {
    T.ListingIsCurrent(cfg, w0, w1, region, Deprovisioning, Listed(w0.rows, region, Pending), fates, true);
  }

  lemma TickRun(cfg: Setup, region: string, w0: World, first: seq<string>, second: seq<string>, fates: string -> Fates)
    requires Enumerates(first, Listed(w0.rows, region, Pending))
    requires var w1 := ActOn(cfg, true, w0, first, fates); Enumerates(second, Listed(w1.rows, region, Deprovisioning))
    ensures RunFrom(cfg, region, System(w0, Idle), TickEvents(first, second, fates))
         == System(AfterTick(cfg, w0, first, second, fates), Idle)
  {
    var w1 := ActOn(cfg, true, w0, first, fates);
    var doomed := Listed(w1.rows, region, Deprovisioning);
    var front := ([BeginTick(true)] + SiteEvents(true, first, fates)) + [ListDoomed(true)];
    FrontRun(cfg, region, w0, first, fates);
    RunOn(cfg, region, System(w0, Idle), front, SiteEvents(false, second, fates) + [EndTick]);
    BackRun(cfg, region, w1, doomed, second, fates);
  }

  lemma BackRun(cfg: Setup, region: string, w: World, doomed: set<string>, second: seq<string>, fates: string -> Fates)
    requires Enumerates(second, doomed) && doomed <= w.rows.Keys
    ensures RunFrom(cfg, region, System(w, TearingDown(doomed)), SiteEvents(false, second, fates) + [EndTick])
         == System(ActOn(cfg, false, w, second, fates), Idle)
  {
    MachineActs(cfg, region, false, w, doomed, second, doomed, fates);
    assert doomed - doomed == {};
    RunOneMore(cfg, region, System(w, TearingDown(doomed)), SiteEvents(false, second, fates), EndTick);
  }

  lemma FrontRun(cfg: Setup, region: string, w0: World, first: seq<string>, fates: string -> Fates)
    requires Enumerates(first, Listed(w0.rows, region, Pending))
    ensures var w1 := ActOn(cfg, true, w0, first, fates);
            RunFrom(cfg, region, System(w0, Idle), ([BeginTick(true)] + SiteEvents(true, first, fates)) + [ListDoomed(true)])
              == System(w1, TearingDown(Listed(w1.rows, region, Deprovisioning)))
  {
    var pending := Listed(w0.rows, region, Pending);
    RunOneMore(cfg, region, System(w0, Idle), [], BeginTick(true));
    assert [] + [BeginTick(true)] == [BeginTick(true)];
    RunOn(cfg, region, System(w0, Idle), [BeginTick(true)], SiteEvents(true, first, fates));
    MachineActs(cfg, region, true, w0, pending, first, pending, fates);
    assert pending - pending == {};
    RunOneMore(cfg, region, System(w0, Idle), [BeginTick(true)] + SiteEvents(true, first, fates), ListDoomed(true));
  }

  // ---------------------------------------------------------------- what operators want comes about

  function AllCalm(): string -> Fates {
    (id: string) => ALL_WELL
  }

  /** A tick whose calls all succeed, from an idle state of any run, settles an owned site. */
  lemma CalmTickSettles(cfg: Setup, region: string, events: seq<Event>, first: seq<string>, second: seq<string>, id: string)
    requires var s := Run(cfg, region, events);
             && s.phase.Idle? && id in s.world.rows && (region == "" || s.world.rows[id].region == region)
             && (cfg.Dns? ==> cfg.Usable(s.world.rows[id].slug))
             && Enumerates(first, Listed(s.world.rows, region, Pending))
             && Enumerates(second, Listed(s.world.rows, region, Deprovisioning))
    ensures var w, s' := Run(cfg, region, events).world, Run(cfg, region, events + TickEvents(first, second, AllCalm()));
            && s'.phase.Idle? && id in s'.world.rows
            && (w.rows[id].status.Pending? ==>
                  ViewOf(cfg, s'.world, id) == View(Running, true, true, if cfg.Dns? then Some(cfg.edgeIP) else None))
            && (w.rows[id].status.Deprovisioning? ==> ViewOf(cfg, s'.world, id) == View(Stopped, false, false, None))
  {
    var tick := TickEvents(first, second, AllCalm());
    var s := Run(cfg, region, events);
    assert UniqueSlugs(s.world.rows) by {
      EveryRunIsSafe(cfg, region, events);
    }
    TickIsRun(cfg, region, s.world, first, second, AllCalm());
    assert s == System(s.world, Idle);
    RunAndOn(cfg, region, events, tick);
    OutcomeWhenCalm(cfg, s.world, id);
  }

  lemma RunAndOn(cfg: Setup, region: string, events: seq<Event>, more: seq<Event>)
    ensures Run(cfg, region, events + more) == RunFrom(cfg, region, Run(cfg, region, events), more)
  {
    RunIsFromEmpty(cfg, region, events);
    RunIsFromEmpty(cfg, region, events + more);
    RunOn(cfg, region, EMPTY, events, more);
  }

  lemma OutcomeWhenCalm(cfg: Setup, w0: World, id: string)
    requires id in w0.rows && (cfg.Dns? ==> cfg.Usable(w0.rows[id].slug))
    ensures var v := T.Outcome(cfg, w0, id, ALL_WELL);
            && (w0.rows[id].status.Pending? ==> v == View(Running, true, true, if cfg.Dns? then Some(cfg.edgeIP) else None))
            && (w0.rows[id].status.Deprovisioning? ==> v == View(Stopped, false, false, None))
  {
  }

  /** One event between two ticks. */
  lemma RunOneOn(cfg: Setup, region: string, events: seq<Event>, e: Event)
    ensures Run(cfg, region, events + [e]) == Step(cfg, region, Run(cfg, region, events), e)
  {
    assert (events + [e])[..|events|] == events;
  }

  /** Whatever has happened to a site of the watcher's, once it is retried the next tick in which nothing fails has
      it Running, routed and resolving to the edge. */
  lemma RetryRecovers(cfg: Setup, region: string, events: seq<Event>, first: seq<string>, second: seq<string>, id: string)
    requires var w := Run(cfg, region, events).world;
             && Run(cfg, region, events).phase.Idle? && id in w.rows && (region == "" || w.rows[id].region == region)
             && (cfg.Dns? ==> cfg.Usable(w.rows[id].slug))
    requires var rows := Run(cfg, region, events + [Retry(id)]).world.rows;
             Enumerates(first, Listed(rows, region, Pending)) && Enumerates(second, Listed(rows, region, Deprovisioning))
    ensures var s := Run(cfg, region, events + [Retry(id)] + TickEvents(first, second, AllCalm()));
            && s.phase.Idle? && id in s.world.rows
            && ViewOf(cfg, s.world, id) == View(Running, true, true, if cfg.Dns? then Some(cfg.edgeIP) else None)
  {
    RunOneOn(cfg, region, events, Retry(id));
    CalmTickSettles(cfg, region, events + [Retry(id)], first, second, id);
  }

  /** Once its teardown is asked for, that tick has it Stopped and leaves nothing of it: no route, no container,
      no record. */
  lemma TeardownCompletes(cfg: Setup, region: string, events: seq<Event>, first: seq<string>, second: seq<string>, id: string)
    requires var w := Run(cfg, region, events).world;
             && Run(cfg, region, events).phase.Idle? && id in w.rows && (region == "" || w.rows[id].region == region)
             && (cfg.Dns? ==> cfg.Usable(w.rows[id].slug))
    requires var rows := Run(cfg, region, events + [RequestTeardown(id)]).world.rows;
             Enumerates(first, Listed(rows, region, Pending)) && Enumerates(second, Listed(rows, region, Deprovisioning))
    ensures var s := Run(cfg, region, events + [RequestTeardown(id)] + TickEvents(first, second, AllCalm()));
            && s.phase.Idle? && id in s.world.rows
            && ViewOf(cfg, s.world, id) == View(Stopped, false, false, None)
  {
    RunOneOn(cfg, region, events, RequestTeardown(id));
    CalmTickSettles(cfg, region, events + [RequestTeardown(id)], first, second, id);
  }

  /** A new site comes up in that tick. */
  lemma InsertComesUp(cfg: Setup, region: string, events: seq<Event>, first: seq<string>, second: seq<string>, id: string,
                      slug: string, place: string)
    requires var w := Run(cfg, region, events).world;
             && Run(cfg, region, events).phase.Idle? && id !in w.rows && (region == "" || place == region)
             && (forall j :: j in w.rows ==> w.rows[j].slug != slug) && (cfg.Dns? ==> cfg.Usable(slug))
    requires var rows := Run(cfg, region, events + [Event.Insert(id, slug, place)]).world.rows;
             Enumerates(first, Listed(rows, region, Pending)) && Enumerates(second, Listed(rows, region, Deprovisioning))
    ensures var s := Run(cfg, region, events + [Event.Insert(id, slug, place)] + TickEvents(first, second, AllCalm()));
            && s.phase.Idle? && id in s.world.rows
            && ViewOf(cfg, s.world, id) == View(Running, true, true, if cfg.Dns? then Some(cfg.edgeIP) else None)
  {
    RunOneOn(cfg, region, events, Event.Insert(id, slug, place));
    CalmTickSettles(cfg, region, events + [Event.Insert(id, slug, place)], first, second, id);
  }
}
