/** Any number of watchers, of any scopes, with listings of any age, and operators at work all the while. A
    watcher's step on a site is taken call by call, so that the steps of two watchers on one site can overlap:
    nothing in the watcher keeps them apart. */
module ManyWatchers {
  import opened HostNames
  import opened Lifecycle
  import opened Zones

  /** The call a step makes next. */
  datatype Stage =
    | Placing | Starting | Publishing          // provisioning: DNS, container, port map
    | Unpublishing | Removing | Unplacing      // teardown: port map, container, DNS
    | Marking(status: Status)                  // the row

  /** A step under way: provisioning if `up`, else teardown. */
  datatype Job = Job(id: string, up: bool, stage: Stage)

  /** The watchers, by number, that are in the middle of a step; and for each site, whether it has ever been
      Pending (true) or Deprovisioning (false), so that some listing may name it. */
  datatype Site = Site(id: string, up: bool)
  datatype Crowd = Crowd(world: World, jobs: map<nat, Job>, seen: set<Site>)

  datatype Event =
    | Insert(id: string, slug: string, region: string)
    | RequestTeardown(id: string)
    | Retry(id: string)
    // A watcher comes to a site it has once listed, and makes the calls of its step one by one.
    | Begin(watcher: nat, id: string, up: bool)
    | Advance(watcher: nat, fates: Fates)

  /** What the surroundings rule out or not: two provisioning steps of one site at a time, provisioning and
      teardown of one site at a time, provisioner calls that fail, updates that do not get through. Teardowns
      of one site may always overlap, DNS may always fail. */
  datatype Policy = Policy(provisions: bool, opposite: bool, failures: bool, refusals: bool)

  predicate Admits(pol: Policy, f: Fates) {
    (f.engine.Fails? ==> pol.failures) && (f.update.Refused? ==> pol.refusals)
  }

  predicate MayBegin(pol: Policy, jobs: map<nat, Job>, id: string, up: bool) {
    forall t :: t in jobs && jobs[t].id == id ==> if jobs[t].up != up then pol.opposite else up ==> pol.provisions
  }

  // ---------------------------------------------------------------- one call

  /** Whether a step goes on after its DNS call. */
  predicate Passes(cfg: Setup, slug: string, f: Fates) {
    cfg.NoDns? || (cfg.Usable(slug) && f.dns.Done?)
  }

  function CallStep(cfg: Setup, w: World, id: string, stage: Stage, f: Fates): World
    requires id in w.rows
  {
    var slug := w.rows[id].slug;
    match stage
    case Placing =>
      if cfg.Usable(slug) && !f.dns.Refused? then w.(zone := w.zone[A(TenantHost(slug, cfg.base)) := cfg.edgeIP]) else w
    case Starting => w.(containers := With(w.containers, slug, f.engine.Succeeds? || f.engine.leaves))
    case Publishing => w.(ports := w.ports + {slug})
    case Unpublishing => w.(ports := w.ports - {slug})
    case Removing =>
      w.(containers := With(w.containers, slug, f.engine.Fails? && f.engine.leaves && slug in w.containers))
    case Unplacing =>
      if cfg.Usable(slug) && !f.dns.Refused? then w.(zone := w.zone - {A(TenantHost(slug, cfg.base))}) else w
    case Marking(status) => w.(rows := Persist(w.rows, id, status, f.update))
  }

  /** Where the step is after the call; nowhere when that was its last. */
  function NextStage(cfg: Setup, slug: string, stage: Stage, f: Fates): Option<Stage> {
    match stage
    case Placing => Some(if Passes(cfg, slug, f) then Starting else Marking(Failed))
    case Starting => Some(if f.engine.Succeeds? then Publishing else Marking(Failed))
    case Publishing => Some(Marking(Running))
    case Unpublishing => Some(Removing)
    case Removing => Some(if f.engine.Succeeds? then Unplacing else Marking(Failed))
    case Unplacing => Some(Marking(Stopped))
    case Marking(_) => None
  }

  /** Events that cannot happen, or that the policy rules out, leave the system as it is. */
  function Next(cfg: Setup, pol: Policy, s: Crowd, e: Event): Crowd {
    match e
    case Insert(id, slug, region) =>
      if id in s.world.rows || exists j :: j in s.world.rows && s.world.rows[j].slug == slug then s
      else s.(world := Inserted(s.world, id, slug, region), seen := s.seen + {Site(id, true)})
    case RequestTeardown(id) => s.(world := SetStatus(s.world, id, Deprovisioning), seen := s.seen + {Site(id, false)})
    case Retry(id) => s.(world := SetStatus(s.world, id, Pending), seen := s.seen + {Site(id, true)})
    case Begin(t, id, up) =>
      if t in s.jobs || id !in s.world.rows || Site(id, up) !in s.seen || !MayBegin(pol, s.jobs, id, up) then s
      else s.(jobs := s.jobs[t := Job(id, up, if up then Placing else Unpublishing)])
    case Advance(t, f) =>
      if t !in s.jobs || s.jobs[t].id !in s.world.rows || !Admits(pol, f) then s
      else
        var j := s.jobs[t];
        var next := NextStage(cfg, s.world.rows[j.id].slug, j.stage, f);
        s.(world := CallStep(cfg, s.world, j.id, j.stage, f),
           jobs := if next.None? then s.jobs - {t} else s.jobs[t := j.(stage := next.value)])
  }

  /** Operators do to the rows what they do with one watcher. */
  lemma SameOperators(cfg: Setup, pol: Policy, region: string, s: Crowd, phase: Phase, id: string, slug: string, place: string)
    ensures Next(cfg, pol, s, Event.Insert(id, slug, place)).world
         == Lifecycle.Step(cfg, region, System(s.world, phase), Lifecycle.Event.Insert(id, slug, place)).world
    ensures Next(cfg, pol, s, Event.RequestTeardown(id)).world
         == Lifecycle.Step(cfg, region, System(s.world, phase), Lifecycle.Event.RequestTeardown(id)).world
    ensures Next(cfg, pol, s, Event.Retry(id)).world
         == Lifecycle.Step(cfg, region, System(s.world, phase), Lifecycle.Event.Retry(id)).world
  {
  }

  const NOTHING := Crowd(World(map[], {}, {}, map[]), map[], {})

  function History(cfg: Setup, pol: Policy, events: seq<Event>): Crowd {
    if events == [] then NOTHING
    else Next(cfg, pol, History(cfg, pol, events[..|events| - 1]), events[|events| - 1])
  }

  /** No step is under way on the site. */
  predicate Quiet(s: Crowd, id: string) {
    forall t :: t in s.jobs ==> s.jobs[t].id != id
  }

  /** Every site that nobody is working on is safe. */
  ghost predicate QuietlySafe(cfg: Setup, s: Crowd) {
    forall id :: id in s.world.rows && Quiet(s, id) ==> SafeView(cfg, s.world.rows[id].slug, ViewOf(cfg, s.world, id))
  }

  // ---------------------------------------------------------------- a step on its own

  /** A step made up of its calls. */
  function Calls(cfg: Setup, w: World, id: string, stage: Stage, f: Fates, n: nat): World
    requires id in w.rows
    decreases n
  {
    var next := NextStage(cfg, w.rows[id].slug, stage, f);
    var w' := CallStep(cfg, w, id, stage, f);
    if n == 0 || next.None? || id !in w'.rows then w' else Calls(cfg, w', id, next.value, f, n - 1)
  }

  lemma WholeProvision(cfg: Setup, w: World, id: string, f: Fates)
    requires id in w.rows
    ensures Calls(cfg, w, id, Placing, f, 3) == ProvisionStep(cfg, w, id, f)
  {
    var slug := w.rows[id].slug;
    var w1 := CallStep(cfg, w, id, Placing, f);
    var w2 := CallStep(cfg, w1, id, Starting, f);
    var w3 := CallStep(cfg, w2, id, Publishing, f);
    if Passes(cfg, slug, f) && f.engine.Succeeds? {
      assert Calls(cfg, w2, id, Publishing, f, 1) == CallStep(cfg, w3, id, Marking(Running), f);
    } else if Passes(cfg, slug, f) {
      assert Calls(cfg, w1, id, Starting, f, 2) == CallStep(cfg, w2, id, Marking(Failed), f);
    }
  }

  lemma WholeTeardown(cfg: Setup, w: World, id: string, f: Fates)
    requires id in w.rows
    ensures Calls(cfg, w, id, Unpublishing, f, 3) == DeprovisionStep(cfg, w, id, f)
  {
    var w1 := CallStep(cfg, w, id, Unpublishing, f);
    var w2 := CallStep(cfg, w1, id, Removing, f);
    var w3 := CallStep(cfg, w2, id, Unplacing, f);
    if f.engine.Succeeds? {
      assert Calls(cfg, w2, id, Unplacing, f, 1) == CallStep(cfg, w3, id, Marking(Stopped), f);
    } else {
      assert Calls(cfg, w1, id, Removing, f, 2) == CallStep(cfg, w2, id, Marking(Failed), f);
    }
  }

  /** A watcher in the middle of a step that advances as often as the step has calls, and nobody else does. */
  function AdvanceBy(cfg: Setup, pol: Policy, s: Crowd, t: nat, f: Fates, n: nat): Crowd
    decreases n
  {
    var s' := Next(cfg, pol, s, Advance(t, f));
    if n == 0 || t !in s'.jobs then s' else AdvanceBy(cfg, pol, s', t, f, n - 1)
  }

  lemma {:induction false} AdvanceMakesCalls(cfg: Setup, pol: Policy, s: Crowd, t: nat, f: Fates, n: nat)
    requires t in s.jobs && s.jobs[t].id in s.world.rows && Admits(pol, f)
    ensures AdvanceBy(cfg, pol, s, t, f, n).world == Calls(cfg, s.world, s.jobs[t].id, s.jobs[t].stage, f, n)
    ensures AdvanceBy(cfg, pol, s, t, f, n).jobs - {t} == s.jobs - {t} && AdvanceBy(cfg, pol, s, t, f, n).seen == s.seen
    decreases n
  {
    var s' := Next(cfg, pol, s, Advance(t, f));
    assert s'.world == CallStep(cfg, s.world, s.jobs[t].id, s.jobs[t].stage, f) && s'.jobs - {t} == s.jobs - {t};
    if n > 0 && t in s'.jobs {
      AdvanceMakesCalls(cfg, pol, s', t, f, n - 1);
    }
  }

  /** With nothing in between, the calls of a step come to the step as a whole. */
  lemma WholeStep(cfg: Setup, pol: Policy, s: Crowd, t: nat, id: string, up: bool, f: Fates)
    requires t !in s.jobs && id in s.world.rows && Site(id, up) in s.seen && Admits(pol, f)
    requires MayBegin(pol, s.jobs, id, up)
    ensures AdvanceBy(cfg, pol, Next(cfg, pol, s, Begin(t, id, up)), t, f, 3).world
         == if up then ProvisionStep(cfg, s.world, id, f) else DeprovisionStep(cfg, s.world, id, f)
  {
    AdvanceMakesCalls(cfg, pol, Next(cfg, pol, s, Begin(t, id, up)), t, f, 3);
    if up {
      WholeProvision(cfg, s.world, id, f);
    } else {
      WholeTeardown(cfg, s.world, id, f);
    }
  }

  // ---------------------------------------------------------------- what keeps the sites safe

  /** The edge can have records at all. */
  predicate Workable(cfg: Setup) {
    cfg.NoDns? || (cfg.base != "" && cfg.edgeIP != "")
  }

  /** Updates get through; provisioning and teardown of a site do not overlap; and two provisionings of a site
      do not either, unless provisioner calls cannot fail. */
  predicate Careful(pol: Policy) {
    !pol.refusals && !pol.opposite && !(pol.provisions && pol.failures)
  }

  function CallView(cfg: Setup, slug: string, v: View, stage: Stage, f: Fates): View {
    match stage
    case Placing => if cfg.Usable(slug) && !f.dns.Refused? then v.(pointer := Some(cfg.edgeIP)) else v
    case Starting => v.(container := f.engine.Succeeds? || f.engine.leaves)
    case Publishing => v.(published := true)
    case Unpublishing => v.(published := false)
    case Removing => v.(container := f.engine.Fails? && f.engine.leaves && v.container)
    case Unplacing => if cfg.Usable(slug) && !f.dns.Refused? then v.(pointer := None) else v
    case Marking(status) => if f.update.Refused? then v else v.(status := status)
  }

  lemma CallIsLocal(cfg: Setup, w: World, id: string, stage: Stage, f: Fates)
    requires id in w.rows
    ensures var w' := CallStep(cfg, w, id, stage, f);
            OnlySite(cfg, w, w', id) && ViewOf(cfg, w', id) == CallView(cfg, w.rows[id].slug, ViewOf(cfg, w, id), stage, f)
  {
  }

  /** What a step under way can rely on about its site. */
  predicate Relies(cfg: Setup, slug: string, v: View, up: bool, stage: Stage) {
    var placed := cfg.Dns? ==> slug != "" && v.pointer == Some(cfg.edgeIP);
    match stage
    case Placing => up
    case Starting => up && placed
    case Publishing => up && placed && v.container
    case Unpublishing => !up
    case Removing => !up && !v.published
    case Unplacing => !up && !v.published && !v.container
    case Marking(status) =>
      match status
      case Running => up && placed && v.container && v.published
      case Stopped => !up && !v.published && !v.container
      case Failed => true
      case _ => false
  }

  /** The step itself can rely on more after its call; the last call leaves the site safe. */
  lemma CallKeepsOwn(cfg: Setup, slug: string, v: View, up: bool, stage: Stage, f: Fates)
    requires Relies(cfg, slug, v, up, stage) && !f.update.Refused?
    ensures var v', next := CallView(cfg, slug, v, stage, f), NextStage(cfg, slug, stage, f);
            if next.Some? then Relies(cfg, slug, v', up, next.value) else SafeView(cfg, slug, v')
  {
  }

  /** Another step in the same direction loses nothing by it, if provisioner calls do not fail under it. */
  lemma CallKeepsOthers(cfg: Setup, slug: string, v: View, up: bool, stage: Stage, f: Fates, other: Stage)
    requires Relies(cfg, slug, v, up, stage) && Relies(cfg, slug, v, up, other) && (up ==> f.engine.Succeeds?)
    ensures Relies(cfg, slug, CallView(cfg, slug, v, stage, f), up, other)
  {
  }

  ghost predicate JobsRely(cfg: Setup, s: Crowd) {
    forall t :: t in s.jobs ==>
      var j := s.jobs[t];
      j.id in s.world.rows && Relies(cfg, s.world.rows[j.id].slug, ViewOf(cfg, s.world, j.id), j.up, j.stage)
  }

  /** Steps that overlap on a site go the same way, and provisioning steps overlap only where they may. */
  ghost predicate JobsAgree(pol: Policy, jobs: map<nat, Job>) {
    forall t, u :: t in jobs && u in jobs && t != u && jobs[t].id == jobs[u].id ==>
      jobs[t].up == jobs[u].up && (jobs[t].up ==> pol.provisions)
  }

  ghost predicate Inv(cfg: Setup, pol: Policy, s: Crowd) {
    UniqueSlugs(s.world.rows) && JobsRely(cfg, s) && JobsAgree(pol, s.jobs) && QuietlySafe(cfg, s)
  }

  lemma SameRows(cfg: Setup, w: World, w': World, id: string)
    requires UniqueSlugs(w.rows) && id in w.rows && OnlySite(cfg, w, w', id)
    ensures UniqueSlugs(w'.rows) && w'.rows.Keys == w.rows.Keys && w'.rows[id].slug == w.rows[id].slug
    ensures forall j :: j in w.rows && j != id ==> w'.rows[j] == w.rows[j] && ViewOf(cfg, w', j) == ViewOf(cfg, w, j)
  {
    forall j | j in w.rows && j != id
      ensures w'.rows[j] == w.rows[j] && ViewOf(cfg, w', j) == ViewOf(cfg, w, j)
    {
      OthersUnaffected(cfg, w, w', id, j);
    }
    forall i, j | i in w'.rows && j in w'.rows && i != j
      ensures w'.rows[i].slug != w'.rows[j].slug
    {
      assert w.rows[i].slug != w.rows[j].slug;
    }
  }

  lemma AdvanceKeepsJob(cfg: Setup, pol: Policy, s: Crowd, t: nat, f: Fates, u: nat)
    requires Careful(pol) && UniqueSlugs(s.world.rows) && JobsRely(cfg, s) && JobsAgree(pol, s.jobs)
    requires t in s.jobs && s.jobs[t].id in s.world.rows && Admits(pol, f)
    requires u in Next(cfg, pol, s, Advance(t, f)).jobs
    ensures var s' := Next(cfg, pol, s, Advance(t, f));
            var k := s'.jobs[u];
            && k.id in s'.world.rows
            && Relies(cfg, s'.world.rows[k.id].slug, ViewOf(cfg, s'.world, k.id), k.up, k.stage)
  {
    var j, s' := s.jobs[t], Next(cfg, pol, s, Advance(t, f));
    var slug, v := s.world.rows[j.id].slug, ViewOf(cfg, s.world, j.id);
    CallIsLocal(cfg, s.world, j.id, j.stage, f);
    SameRows(cfg, s.world, s'.world, j.id);
    if u == t {
      CallKeepsOwn(cfg, slug, v, j.up, j.stage, f);
    } else if s.jobs[u].id == j.id {
      CallKeepsOthers(cfg, slug, v, j.up, j.stage, f, s.jobs[u].stage);
    }
  }

  lemma AdvanceKeepsJobs(cfg: Setup, pol: Policy, s: Crowd, t: nat, f: Fates)
    requires Careful(pol) && UniqueSlugs(s.world.rows) && JobsRely(cfg, s) && JobsAgree(pol, s.jobs)
    requires t in s.jobs && s.jobs[t].id in s.world.rows && Admits(pol, f)
    ensures JobsRely(cfg, Next(cfg, pol, s, Advance(t, f)))
  {
    forall u | u in Next(cfg, pol, s, Advance(t, f)).jobs {
      AdvanceKeepsJob(cfg, pol, s, t, f, u);
    }
  }

  lemma AdvanceKeepsSafe(cfg: Setup, pol: Policy, s: Crowd, t: nat, f: Fates)
    requires Careful(pol) && UniqueSlugs(s.world.rows) && JobsRely(cfg, s) && QuietlySafe(cfg, s)
    requires t in s.jobs && s.jobs[t].id in s.world.rows && Admits(pol, f)
    ensures QuietlySafe(cfg, Next(cfg, pol, s, Advance(t, f))) && UniqueSlugs(Next(cfg, pol, s, Advance(t, f)).world.rows)
  {
    var j, s' := s.jobs[t], Next(cfg, pol, s, Advance(t, f));
    CallIsLocal(cfg, s.world, j.id, j.stage, f);
    SameRows(cfg, s.world, s'.world, j.id);
    CallKeepsOwn(cfg, s.world.rows[j.id].slug, ViewOf(cfg, s.world, j.id), j.up, j.stage, f);
    forall id | id in s'.world.rows && Quiet(s', id)
      ensures SafeView(cfg, s'.world.rows[id].slug, ViewOf(cfg, s'.world, id))
    {
      if id == j.id {
        assert t !in s'.jobs;
      } else {
        assert Quiet(s, id) by {
          assert forall u :: u in s.jobs && u != t ==> u in s'.jobs && s'.jobs[u] == s.jobs[u];
        }
      }
    }
  }

  lemma AdvanceAgrees(cfg: Setup, pol: Policy, s: Crowd, t: nat, f: Fates)
    requires JobsAgree(pol, s.jobs)
    ensures JobsAgree(pol, Next(cfg, pol, s, Advance(t, f)).jobs)
  {
    var jobs' := Next(cfg, pol, s, Advance(t, f)).jobs;
    assert forall u :: u in jobs' ==> u in s.jobs && jobs'[u].id == s.jobs[u].id && jobs'[u].up == s.jobs[u].up;
  }

  lemma AdvanceKeepsInv(cfg: Setup, pol: Policy, s: Crowd, t: nat, f: Fates)
    requires Careful(pol) && Inv(cfg, pol, s) && t in s.jobs && s.jobs[t].id in s.world.rows && Admits(pol, f)
    ensures Inv(cfg, pol, Next(cfg, pol, s, Advance(t, f)))
  {
    AdvanceKeepsJobs(cfg, pol, s, t, f);
    AdvanceKeepsSafe(cfg, pol, s, t, f);
    AdvanceAgrees(cfg, pol, s, t, f);
  }

  lemma BeginAgrees(pol: Policy, jobs: map<nat, Job>, t: nat, id: string, up: bool)
    requires !pol.opposite && JobsAgree(pol, jobs) && t !in jobs && MayBegin(pol, jobs, id, up)
    ensures JobsAgree(pol, jobs[t := Job(id, up, if up then Placing else Unpublishing)])
  {
    var jobs' := jobs[t := Job(id, up, if up then Placing else Unpublishing)];
    assert forall u :: u in jobs' ==> u == t || (u in jobs && jobs'[u] == jobs[u]);
  }

  lemma BeginKeepsInv(cfg: Setup, pol: Policy, s: Crowd, t: nat, id: string, up: bool)
    requires Careful(pol) && Inv(cfg, pol, s) && t !in s.jobs && id in s.world.rows && MayBegin(pol, s.jobs, id, up)
    ensures Inv(cfg, pol, s.(jobs := s.jobs[t := Job(id, up, if up then Placing else Unpublishing)]))
  {
    var jobs := s.jobs[t := Job(id, up, if up then Placing else Unpublishing)];
    var s' := s.(jobs := jobs);
    BeginAgrees(pol, s.jobs, t, id, up);
    assert JobsRely(cfg, s') by {
      assert forall u :: u in jobs ==> u == t || (u in s.jobs && jobs[u] == s.jobs[u]);
    }
    assert QuietlySafe(cfg, s') by {
      forall other | other in s'.world.rows && Quiet(s', other)
        ensures Quiet(s, other)
      {
        assert forall u :: u in s.jobs ==> u in jobs && jobs[u] == s.jobs[u];
      }
    }
  }

  lemma StatusAside(cfg: Setup, slug: string, v: View, status: Status, up: bool, stage: Stage)
    ensures Relies(cfg, slug, v.(status := status), up, stage) <==> Relies(cfg, slug, v, up, stage)
  {
  }

  lemma OperatorKeepsJobs(cfg: Setup, s: Crowd, id: string, status: Status, seen: set<Site>)
    requires UniqueSlugs(s.world.rows) && JobsRely(cfg, s) && id in s.world.rows
    ensures JobsRely(cfg, s.(world := SetStatus(s.world, id, status), seen := seen))
  {
    var w' := SetStatus(s.world, id, status);
    forall t | t in s.jobs
      ensures var j := s.jobs[t]; Relies(cfg, w'.rows[j.id].slug, ViewOf(cfg, w', j.id), j.up, j.stage)
    {
      var j := s.jobs[t];
      StatusAside(cfg, s.world.rows[j.id].slug, ViewOf(cfg, s.world, j.id), status, j.up, j.stage);
      assert ViewOf(cfg, w', j.id) == ViewOf(cfg, s.world, j.id).(status := w'.rows[j.id].status);
    }
  }

  lemma OperatorKeepsSafe(cfg: Setup, s: Crowd, id: string, status: Status, seen: set<Site>)
    requires QuietlySafe(cfg, s) && id in s.world.rows && (status.Pending? || status.Deprovisioning?)
    ensures QuietlySafe(cfg, s.(world := SetStatus(s.world, id, status), seen := seen))
  {
    var s' := s.(world := SetStatus(s.world, id, status), seen := seen);
    forall other | other in s'.world.rows && Quiet(s', other)
      ensures SafeView(cfg, s'.world.rows[other].slug, ViewOf(cfg, s'.world, other))
    {
      assert Quiet(s, other);
      if other != id {
        assert ViewOf(cfg, s'.world, other) == ViewOf(cfg, s.world, other);
      }
    }
  }

  lemma OperatorKeepsInv(cfg: Setup, pol: Policy, s: Crowd, id: string, status: Status, seen: set<Site>)
    requires Inv(cfg, pol, s) && (status.Pending? || status.Deprovisioning?)
    ensures Inv(cfg, pol, s.(world := SetStatus(s.world, id, status), seen := seen))
  {
    if id in s.world.rows {
      OperatorKeepsJobs(cfg, s, id, status, seen);
      OperatorKeepsSafe(cfg, s, id, status, seen);
      assert UniqueSlugs(SetStatus(s.world, id, status).rows) by {
        SameRows(cfg, s.world, SetStatus(s.world, id, status), id);
      }
    } else {
      assert forall other :: Quiet(s.(seen := seen), other) ==> Quiet(s, other);
    }
  }

  lemma InsertKeepsInv(cfg: Setup, pol: Policy, s: Crowd, id: string, slug: string, region: string, seen: set<Site>)
    requires Inv(cfg, pol, s) && id !in s.world.rows
    requires forall j :: j in s.world.rows ==> s.world.rows[j].slug != slug
    ensures Inv(cfg, pol, s.(world := Inserted(s.world, id, slug, region), seen := seen))
  {
    var w, w' := s.world, Inserted(s.world, id, slug, region);
    assert w'.rows[id] == Row(slug, region, Pending);
    assert forall j :: j in w.rows ==> w'.rows[j] == w.rows[j] && ViewOf(cfg, w', j) == ViewOf(cfg, w, j);
  }

  lemma StepKeepsInv(cfg: Setup, pol: Policy, s: Crowd, e: Event)
    requires Careful(pol) && Inv(cfg, pol, s)
    ensures Inv(cfg, pol, Next(cfg, pol, s, e))
  {
    match e
    case Insert(id, slug, region) =>
      if id !in s.world.rows && forall j :: j in s.world.rows ==> s.world.rows[j].slug != slug {
        InsertKeepsInv(cfg, pol, s, id, slug, region, s.seen + {Site(id, true)});
      }
    case RequestTeardown(id) => OperatorKeepsInv(cfg, pol, s, id, Deprovisioning, s.seen + {Site(id, false)});
    case Retry(id) => OperatorKeepsInv(cfg, pol, s, id, Pending, s.seen + {Site(id, true)});
    case Begin(t, id, up) =>
      if t !in s.jobs && id in s.world.rows && MayBegin(pol, s.jobs, id, up) {
        BeginKeepsInv(cfg, pol, s, t, id, up);
      }
    case Advance(t, f) =>
      if t in s.jobs && s.jobs[t].id in s.world.rows && Admits(pol, f) {
        AdvanceKeepsInv(cfg, pol, s, t, f);
      }
  }

  lemma {:induction false} CarefulRunsAreSafe(cfg: Setup, pol: Policy, events: seq<Event>)
    requires Careful(pol)
    ensures Inv(cfg, pol, History(cfg, pol, events))
  {
    if events != [] {
      CarefulRunsAreSafe(cfg, pol, events[..|events| - 1]);
      StepKeepsInv(cfg, pol, History(cfg, pol, events[..|events| - 1]), events[|events| - 1]);
    }
  }

  // ---------------------------------------------------------------- and nothing less does

  /** A site and up to two watchers at work on it: its status, route and container, and the call that each
      watcher makes next, if it is in a step. */
  datatype Snapshot = Snapshot(status: Status, published: bool, container: bool, mine: Option<Job>, other: Option<Job>)

  ghost predicate ShowsSite(s: Crowd, id: string, slug: string, x: Snapshot) {
    && s.world.rows.Keys == {id} && s.world.rows[id] == Row(slug, "", x.status) && Site(id, true) in s.seen
    && x.published == (slug in s.world.ports) && x.container == (slug in s.world.containers)
  }

  ghost predicate ShowsJobs(jobs: map<nat, Job>, id: string, t: nat, u: nat, x: Snapshot) {
    && t != u && (forall n :: n in jobs ==> n == t || n == u)
    && (t in jobs <==> x.mine.Some?) && (x.mine.Some? ==> jobs[t] == x.mine.value && x.mine.value.id == id)
    && (u in jobs <==> x.other.Some?) && (x.other.Some? ==> jobs[u] == x.other.value && x.other.value.id == id)
  }

  /** Some run comes to this, and the teardown has been asked for in it if it is to be. */
  ghost predicate Comes(cfg: Setup, pol: Policy, id: string, slug: string, x: Snapshot, asked: bool) {
    exists events, t, u :: At(History(cfg, pol, events), id, slug, t, u, x, asked)
  }

  ghost predicate At(s: Crowd, id: string, slug: string, t: nat, u: nat, x: Snapshot, asked: bool) {
    ShowsSite(s, id, slug, x) && ShowsJobs(s.jobs, id, t, u, x) && (asked ==> Site(id, false) in s.seen)
  }

  lemma Extend(cfg: Setup, pol: Policy, events: seq<Event>, e: Event)
    ensures History(cfg, pol, events + [e]) == Next(cfg, pol, History(cfg, pol, events), e)
  {
    assert (events + [e])[..|events|] == events;
  }

  lemma Inserts(cfg: Setup, pol: Policy, id: string, slug: string) returns (x: Snapshot)
    ensures x == Snapshot(Pending, false, false, None, None) && Comes(cfg, pol, id, slug, x, false)
  {
    x := Snapshot(Pending, false, false, None, None);
    assert History(cfg, pol, []) == NOTHING;
    Extend(cfg, pol, [], Event.Insert(id, slug, ""));
    assert At(History(cfg, pol, [] + [Event.Insert(id, slug, "")]), id, slug, 0, 1, x, false);
  }

  lemma AsksForTeardown(cfg: Setup, pol: Policy, id: string, slug: string, x: Snapshot, asked: bool) returns (x': Snapshot)
    requires Comes(cfg, pol, id, slug, x, asked)
    ensures x' == x.(status := Deprovisioning) && Comes(cfg, pol, id, slug, x', true)
  {
    var events, t, u :| At(History(cfg, pol, events), id, slug, t, u, x, asked);
    x' := x.(status := Deprovisioning);
    Extend(cfg, pol, events, Event.RequestTeardown(id));
    assert At(History(cfg, pol, events + [Event.RequestTeardown(id)]), id, slug, t, u, x', true);
  }

  function Turned(x: Snapshot): Snapshot {
    x.(mine := x.other, other := x.mine)
  }

  /** Turn to the other watcher. */
  lemma Turns(cfg: Setup, pol: Policy, id: string, slug: string, x: Snapshot, asked: bool) returns (x': Snapshot)
    requires Comes(cfg, pol, id, slug, x, asked)
    ensures x' == Turned(x) && Comes(cfg, pol, id, slug, x', asked)
  {
    var events, t, u :| At(History(cfg, pol, events), id, slug, t, u, x, asked);
    x' := Turned(x);
    assert At(History(cfg, pol, events), id, slug, u, t, x', asked);
  }

  /** The watcher begins a step. */
  lemma Begins(cfg: Setup, pol: Policy, id: string, slug: string, x: Snapshot, asked: bool, up: bool) returns (x': Snapshot)
    requires Comes(cfg, pol, id, slug, x, asked) && x.mine.None? && (up || asked)
    requires x.other.Some? ==> if up == x.other.value.up then up ==> pol.provisions else pol.opposite
    ensures x' == x.(mine := Some(Job(id, up, if up then Placing else Unpublishing)))
    ensures Comes(cfg, pol, id, slug, x', asked)
  {
    var events, t, u :| At(History(cfg, pol, events), id, slug, t, u, x, asked);
    x' := x.(mine := Some(Job(id, up, if up then Placing else Unpublishing)));
    var s := History(cfg, pol, events);
    assert MayBegin(pol, s.jobs, id, up);
    Extend(cfg, pol, events, Begin(t, id, up));
    assert At(History(cfg, pol, events + [Begin(t, id, up)]), id, slug, t, u, x', asked);
  }

  function Called(cfg: Setup, slug: string, x: Snapshot, f: Fates): Snapshot
    requires x.mine.Some?
  {
    var stage := x.mine.value.stage;
    var v, next := CallView(cfg, slug, View(x.status, x.published, x.container, None), stage, f), NextStage(cfg, slug, stage, f);
    Snapshot(v.status, v.published, v.container,
             if next.None? then None else Some(x.mine.value.(stage := next.value)), x.other)
  }

  lemma CallShows(cfg: Setup, w: World, id: string, slug: string, stage: Stage, f: Fates)
    requires w.rows.Keys == {id} && w.rows[id].slug == slug
    ensures var w' := CallStep(cfg, w, id, stage, f);
            var v := CallView(cfg, slug, View(w.rows[id].status, slug in w.ports, slug in w.containers, None), stage, f);
            && w'.rows.Keys == {id} && w'.rows[id] == w.rows[id].(status := v.status)
            && v.published == (slug in w'.ports) && v.container == (slug in w'.containers)
  {
  }

  /** The watcher makes its next call. */
  lemma MakesCall(cfg: Setup, pol: Policy, id: string, slug: string, x: Snapshot, asked: bool, f: Fates) returns (x': Snapshot)
    requires Comes(cfg, pol, id, slug, x, asked) && x.mine.Some? && Admits(pol, f)
    ensures x' == Called(cfg, slug, x, f) && Comes(cfg, pol, id, slug, x', asked)
  {
    var events, t, u :| At(History(cfg, pol, events), id, slug, t, u, x, asked);
    x' := Called(cfg, slug, x, f);
    var s := History(cfg, pol, events);
    CallShows(cfg, s.world, id, slug, x.mine.value.stage, f);
    Extend(cfg, pol, events, Advance(t, f));
    assert At(History(cfg, pol, events + [Advance(t, f)]), id, slug, t, u, x', asked);
  }

  /** What can happen next, seen from one watcher: the operator asks for the teardown, it is the other
      watcher's turn, or this one begins a step or makes its next call. */
  datatype Move = Ask | Turn | Enter(up: bool) | Call(fates: Fates)

  /** A snapshot and whether the teardown has ever been asked for. */
  datatype Frame = Frame(x: Snapshot, asked: bool)

  predicate CanMove(pol: Policy, fr: Frame, m: Move) {
    match m
    case Enter(up) =>
      fr.x.mine.None? && (up || fr.asked)
      && (fr.x.other.Some? ==> if up == fr.x.other.value.up then up ==> pol.provisions else pol.opposite)
    case Call(f) => fr.x.mine.Some? && Admits(pol, f)
    case _ => true
  }

  function Moved(cfg: Setup, id: string, slug: string, fr: Frame, m: Move): Frame
    requires m.Call? ==> fr.x.mine.Some?
  {
    match m
    case Ask => Frame(fr.x.(status := Deprovisioning), true)
    case Turn => fr.(x := Turned(fr.x))
    case Enter(up) => fr.(x := fr.x.(mine := Some(Job(id, up, if up then Placing else Unpublishing))))
    case Call(f) => fr.(x := Called(cfg, slug, fr.x, f))
  }

  const FIRST := Frame(Snapshot(Pending, false, false, None, None), false)

  /** Where a list of moves leads, if each can be made. */
  function Moves(cfg: Setup, pol: Policy, id: string, slug: string, moves: seq<Move>): Option<Frame> {
    if moves == [] then Some(FIRST)
    else
      var before, m := Moves(cfg, pol, id, slug, moves[..|moves| - 1]), moves[|moves| - 1];
      if before.Some? && CanMove(pol, before.value, m) then Some(Moved(cfg, id, slug, before.value, m)) else None
  }

  /** Some run of the system follows. */
  lemma {:induction false} MovesCome(cfg: Setup, pol: Policy, id: string, slug: string, moves: seq<Move>)
    requires Moves(cfg, pol, id, slug, moves).Some?
    ensures var fr := Moves(cfg, pol, id, slug, moves).value; Comes(cfg, pol, id, slug, fr.x, fr.asked)
  {
    if moves == [] {
      var x := Inserts(cfg, pol, id, slug);
    } else {
      MovesCome(cfg, pol, id, slug, moves[..|moves| - 1]);
      MoveComes(cfg, pol, id, slug, Moves(cfg, pol, id, slug, moves[..|moves| - 1]).value, moves[|moves| - 1]);
    }
  }

  lemma MoveComes(cfg: Setup, pol: Policy, id: string, slug: string, fr: Frame, m: Move)
    requires Comes(cfg, pol, id, slug, fr.x, fr.asked) && CanMove(pol, fr, m)
    ensures var fr' := Moved(cfg, id, slug, fr, m); Comes(cfg, pol, id, slug, fr'.x, fr'.asked)
  {
    match m
    case Ask => var x := AsksForTeardown(cfg, pol, id, slug, fr.x, fr.asked);
    case Turn => var x := Turns(cfg, pol, id, slug, fr.x, fr.asked);
    case Enter(up) => var x := Begins(cfg, pol, id, slug, fr.x, fr.asked, up);
    case Call(f) => var x := MakesCall(cfg, pol, id, slug, fr.x, fr.asked, f);
  }

  /** Make one more move. */
  lemma Make(cfg: Setup, pol: Policy, id: string, slug: string, moves: seq<Move>, fr: Frame, m: Move)
    returns (moves': seq<Move>, fr': Frame)
    requires Moves(cfg, pol, id, slug, moves) == Some(fr) && CanMove(pol, fr, m)
    ensures fr' == Moved(cfg, id, slug, fr, m) && Moves(cfg, pol, id, slug, moves') == Some(fr')
  {
    moves', fr' := moves + [m], Moved(cfg, id, slug, fr, m);
    assert moves'[..|moves|] == moves;
  }

  const WELL := Call(ALL_WELL)

  /** A watcher has started the container and is about to publish it. */
  lemma Starts(cfg: Setup, pol: Policy, id: string, slug: string) returns (moves: seq<Move>, fr: Frame)
    requires Workable(cfg) && slug != ""
    ensures Moves(cfg, pol, id, slug, moves) == Some(fr)
    ensures fr == Frame(Snapshot(Pending, false, true, Some(Job(id, true, Publishing)), None), false)
  {
    moves, fr := [], FIRST;
    moves, fr := Make(cfg, pol, id, slug, moves, fr, Enter(true));
    moves, fr := Make(cfg, pol, id, slug, moves, fr, WELL);
    moves, fr := Make(cfg, pol, id, slug, moves, fr, WELL);
  }

  /** Then the operator asks for the teardown, and a second watcher has taken the site down all but for its
      record. */
  lemma TakesDown(cfg: Setup, pol: Policy, id: string, slug: string) returns (moves: seq<Move>, fr: Frame)
    requires Workable(cfg) && slug != "" && pol.opposite
    ensures Moves(cfg, pol, id, slug, moves) == Some(fr)
    ensures fr == Frame(Snapshot(Deprovisioning, false, false, Some(Job(id, false, Unplacing)), Some(Job(id, true, Publishing))),
                        true)
  {
    moves, fr := Starts(cfg, pol, id, slug);
    moves, fr := Make(cfg, pol, id, slug, moves, fr, Ask);
    moves, fr := Make(cfg, pol, id, slug, moves, fr, Turn);
    moves, fr := Make(cfg, pol, id, slug, moves, fr, Enter(false));
    moves, fr := Make(cfg, pol, id, slug, moves, fr, WELL);
    moves, fr := Make(cfg, pol, id, slug, moves, fr, WELL);
  }

  /** The first one publishes it and marks it Running, and the second finishes. Every call succeeds and every
      update gets through, and the site ends Stopped and routed. */
  lemma OverlapLosesTeardown(cfg: Setup, pol: Policy, id: string, slug: string)
    requires Workable(cfg) && slug != "" && pol.opposite
    ensures Comes(cfg, pol, id, slug, Snapshot(Stopped, true, false, None, None), true)
  {
    var moves, fr := TakesDown(cfg, pol, id, slug);
    moves, fr := Make(cfg, pol, id, slug, moves, fr, Turn);
    moves, fr := Make(cfg, pol, id, slug, moves, fr, WELL);
    moves, fr := Make(cfg, pol, id, slug, moves, fr, WELL);
    moves, fr := Make(cfg, pol, id, slug, moves, fr, Turn);
    moves, fr := Make(cfg, pol, id, slug, moves, fr, WELL);
    moves, fr := Make(cfg, pol, id, slug, moves, fr, WELL);
    MovesCome(cfg, pol, id, slug, moves);
  }

  /** Or a second watcher provisions the site as well; its container call fails and takes the first one's
      container with it. */
  lemma TakesContainer(cfg: Setup, pol: Policy, id: string, slug: string) returns (moves: seq<Move>, fr: Frame)
    requires Workable(cfg) && slug != "" && pol.provisions && pol.failures
    ensures Moves(cfg, pol, id, slug, moves) == Some(fr)
    ensures fr == Frame(Snapshot(Failed, false, false, None, Some(Job(id, true, Publishing))), false)
  {
    var fails := Call(ALL_WELL.(engine := Fails(false)));
    moves, fr := Starts(cfg, pol, id, slug);
    moves, fr := Make(cfg, pol, id, slug, moves, fr, Turn);
    moves, fr := Make(cfg, pol, id, slug, moves, fr, Enter(true));
    moves, fr := Make(cfg, pol, id, slug, moves, fr, fails);
    moves, fr := Make(cfg, pol, id, slug, moves, fr, fails);
    moves, fr := Make(cfg, pol, id, slug, moves, fr, fails);
  }

  /** The first publishes the site and marks it Running, without a container. */
  lemma OverlapLosesContainer(cfg: Setup, pol: Policy, id: string, slug: string)
    requires Workable(cfg) && slug != "" && pol.provisions && pol.failures
    ensures Comes(cfg, pol, id, slug, Snapshot(Running, true, false, None, None), false)
  {
    var moves, fr := TakesContainer(cfg, pol, id, slug);
    moves, fr := Make(cfg, pol, id, slug, moves, fr, Turn);
    moves, fr := Make(cfg, pol, id, slug, moves, fr, WELL);
    moves, fr := Make(cfg, pol, id, slug, moves, fr, WELL);
    MovesCome(cfg, pol, id, slug, moves);
  }

  /** Or the operator asks for the teardown before anything is up, and a watcher makes it. */
  lemma TornDownAtOnce(cfg: Setup, pol: Policy, id: string, slug: string) returns (moves: seq<Move>, fr: Frame)
    requires Workable(cfg) && slug != ""
    ensures Moves(cfg, pol, id, slug, moves) == Some(fr)
    ensures fr == Frame(Snapshot(Stopped, false, false, None, None), true)
  {
    moves, fr := [], FIRST;
    moves, fr := Make(cfg, pol, id, slug, moves, fr, Ask);
    moves, fr := Make(cfg, pol, id, slug, moves, fr, Enter(false));
    moves, fr := Make(cfg, pol, id, slug, moves, fr, WELL);
    moves, fr := Make(cfg, pol, id, slug, moves, fr, WELL);
    moves, fr := Make(cfg, pol, id, slug, moves, fr, WELL);
    moves, fr := Make(cfg, pol, id, slug, moves, fr, WELL);
  }

  /** A watcher with an older listing then brings the site back, and its update is refused. The site ends
      Stopped and routed. */
  lemma RefusalLosesStatus(cfg: Setup, pol: Policy, id: string, slug: string)
    requires Workable(cfg) && slug != "" && pol.refusals
    ensures Comes(cfg, pol, id, slug, Snapshot(Stopped, true, true, None, None), true)
  {
    var moves, fr := TornDownAtOnce(cfg, pol, id, slug);
    moves, fr := Make(cfg, pol, id, slug, moves, fr, Enter(true));
    moves, fr := Make(cfg, pol, id, slug, moves, fr, WELL);
    moves, fr := Make(cfg, pol, id, slug, moves, fr, WELL);
    moves, fr := Make(cfg, pol, id, slug, moves, fr, WELL);
    moves, fr := Make(cfg, pol, id, slug, moves, fr, Call(ALL_WELL.(update := Refused)));
    MovesCome(cfg, pol, id, slug, moves);
  }

  /** Under every policy the teardowns of two watchers can overlap, */
  lemma TeardownsOverlap(cfg: Setup, pol: Policy, id: string, slug: string)
    ensures Comes(cfg, pol, id, slug, Snapshot(Deprovisioning, false, false, Some(Job(id, false, Unpublishing)),
                                               Some(Job(id, false, Removing))), true)
  {
    var moves, fr := [], FIRST;
    moves, fr := Make(cfg, pol, id, slug, moves, fr, Ask);
    moves, fr := Make(cfg, pol, id, slug, moves, fr, Enter(false));
    moves, fr := Make(cfg, pol, id, slug, moves, fr, WELL);
    moves, fr := Make(cfg, pol, id, slug, moves, fr, Turn);
    moves, fr := Make(cfg, pol, id, slug, moves, fr, Enter(false));
    MovesCome(cfg, pol, id, slug, moves);
  }

  /** and the DNS half of a provisioning can fail. */
  lemma RecordsFail(cfg: Setup, pol: Policy, id: string, slug: string)
    requires cfg.Dns?
    ensures Comes(cfg, pol, id, slug, Snapshot(Failed, false, false, None, None), false)
  {
    var refused := Call(ALL_WELL.(dns := Refused));
    var moves, fr := [], FIRST;
    moves, fr := Make(cfg, pol, id, slug, moves, fr, Enter(true));
    moves, fr := Make(cfg, pol, id, slug, moves, fr, refused);
    moves, fr := Make(cfg, pol, id, slug, moves, fr, refused);
    MovesCome(cfg, pol, id, slug, moves);
  }

  lemma ComesUnsafe(cfg: Setup, pol: Policy, id: string, slug: string, x: Snapshot, asked: bool) returns (events: seq<Event>)
    requires Comes(cfg, pol, id, slug, x, asked) && x.mine.None? && x.other.None?
    requires !SafeView(cfg, slug, View(x.status, x.published, x.container, if cfg.Dns? then Some(cfg.edgeIP) else None))
    requires x.status.Stopped? || !x.container
    ensures !QuietlySafe(cfg, History(cfg, pol, events))
  {
    var t, u;
    events, t, u :| At(History(cfg, pol, events), id, slug, t, u, x, asked);
    var s := History(cfg, pol, events);
    assert Quiet(s, id) && !SafeView(cfg, slug, ViewOf(cfg, s.world, id));
  }

  /** At an edge that cannot have records no site ever gets as far as a container. */
  ghost predicate NothingUp(s: Crowd) {
    && s.world.ports == {} && s.world.containers == {}
    && (forall id :: id in s.world.rows ==> !s.world.rows[id].status.Running?)
    && (forall t :: t in s.jobs ==> var stage := s.jobs[t].stage;
          !stage.Starting? && !stage.Publishing? && (stage.Marking? ==> !stage.status.Running?))
  }

  lemma NothingGoesUp(cfg: Setup, pol: Policy, s: Crowd, e: Event)
    requires !Workable(cfg) && NothingUp(s)
    ensures NothingUp(Next(cfg, pol, s, e))
  {
  }

  lemma {:induction false} UnworkableRunsAreSafe(cfg: Setup, pol: Policy, events: seq<Event>)
    requires !Workable(cfg)
    ensures NothingUp(History(cfg, pol, events)) && QuietlySafe(cfg, History(cfg, pol, events))
  {
    if events != [] {
      UnworkableRunsAreSafe(cfg, pol, events[..|events| - 1]);
      NothingGoesUp(cfg, pol, History(cfg, pol, events[..|events| - 1]), events[|events| - 1]);
    }
  }

  /** The exact condition: every site nobody is working on is safe in every run exactly when updates get through,
      provisioning and teardown of one site never overlap, and neither do two provisionings of it unless
      provisioner calls cannot fail. An edge that cannot have records has no sites to lose. */
  lemma SafeIffCareful(cfg: Setup, pol: Policy)
    ensures (forall events :: QuietlySafe(cfg, History(cfg, pol, events))) <==> (Workable(cfg) ==> Careful(pol))
  {
    if Careful(pol) {
      forall events
        ensures QuietlySafe(cfg, History(cfg, pol, events))
      {
        CarefulRunsAreSafe(cfg, pol, events);
      }
    } else if !Workable(cfg) {
      forall events
        ensures QuietlySafe(cfg, History(cfg, pol, events))
      {
        UnworkableRunsAreSafe(cfg, pol, events);
      }
    } else if pol.opposite {
      OverlapLosesTeardown(cfg, pol, "x", "a");
      var events := ComesUnsafe(cfg, pol, "x", "a", Snapshot(Stopped, true, false, None, None), true);
    } else if pol.refusals {
      RefusalLosesStatus(cfg, pol, "x", "a");
      var events := ComesUnsafe(cfg, pol, "x", "a", Snapshot(Stopped, true, true, None, None), true);
    } else {
      OverlapLosesContainer(cfg, pol, "x", "a");
      var events := ComesUnsafe(cfg, pol, "x", "a", Snapshot(Running, true, false, None, None), false);
    }
  }

  // ---------------------------------------------------------------- why updates have to get through

  /** With the update refused, provisioning a safe site is safe whatever the other calls do exactly when the
      site is not settled or provisioning does not get past DNS; */
  lemma RefusedProvisionSafeIff(cfg: Setup, slug: string, v: View)
    requires SafeView(cfg, slug, v)
    ensures (forall f: Fates :: f.update.Refused? ==> SafeView(cfg, slug, ProvisionView(cfg, slug, v, f)))
       <==> !((v.status.Running? || v.status.Stopped?) && (cfg.NoDns? || cfg.Usable(slug)))
  {
    if (v.status.Running? || v.status.Stopped?) && (cfg.NoDns? || cfg.Usable(slug)) {
      var f := Fates(Done, if v.status.Running? then Fails(false) else Succeeds, Refused);
      assert !SafeView(cfg, slug, ProvisionView(cfg, slug, v, f));
    }
  }

  /** and tearing it down is exactly when it is not Running. */
  lemma RefusedTeardownSafeIff(cfg: Setup, slug: string, v: View)
    requires SafeView(cfg, slug, v)
    ensures (forall f: Fates :: f.update.Refused? ==> SafeView(cfg, slug, DeprovisionView(cfg, slug, v, f)))
       <==> !v.status.Running?
  {
    if v.status.Running? {
      assert !SafeView(cfg, slug, DeprovisionView(cfg, slug, v, Fates(Done, Succeeds, Refused)));
    }
  }
}
