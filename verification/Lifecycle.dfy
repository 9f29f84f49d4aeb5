/** A site's life as a state machine: the watcher's steps over site rows, the edge port map, the
    containers and the DNS zone, where every outside call may fail, interleaved with whatever operators
    do to the rows in the meantime. */
module Lifecycle {
  import opened Zones
  import opened HostNames

  /** Unset is the status of a site nobody has inserted yet. */
  datatype Status = Unset | Pending | Provisioning | Running | Failed | Deprovisioning | Stopped

  datatype Row = Row(slug: string, region: string, status: Status)

  /** Site rows by ID, the slugs the edge routes, the slugs that have a container, and the zone. */
  datatype World = World(rows: map<string, Row>, ports: set<string>, containers: set<string>, zone: Pointers)

  /** DNS automation may be off. */
  datatype Setup = NoDns | Dns(base: string, edgeIP: string) {

    /** Whether the manager will talk to its provider about a slug at all. */
    predicate Usable(slug: string) {
      Dns? && base != "" && edgeIP != "" && slug != ""
    }
  }

  // ---------------------------------------------------------------- fates of outside calls

  datatype CallFate = Done | Refused | Unanswered
  /** Provisioning that fails may leave a container or none; teardown that fails may leave the one there was. */
  datatype EngineFate = Succeeds | Fails(leaves: bool)
  datatype Fates = Fates(dns: CallFate, engine: EngineFate, update: CallFate)

  const ALL_WELL := Fates(Done, Succeeds, Done)

  // ---------------------------------------------------------------- the watcher's two steps

  function Persist(rows: map<string, Row>, id: string, status: Status, update: CallFate): map<string, Row>
    requires id in rows
  {
    if update.Refused? then rows else rows[id := rows[id].(status := status)]
  }

  function With<T>(s: set<T>, x: T, present: bool): set<T> {
    if present then s + {x} else s - {x}
  }

  function ProvisionStep(cfg: Setup, w: World, id: string, f: Fates): World
    requires id in w.rows
  {
    var slug := w.rows[id].slug;
    var zone := if cfg.Usable(slug) && !f.dns.Refused? then w.zone[A(TenantHost(slug, cfg.base)) := cfg.edgeIP] else w.zone;
    if cfg.Dns? && !(cfg.Usable(slug) && f.dns.Done?) then
      w.(zone := zone, rows := Persist(w.rows, id, Failed, f.update))
    else if f.engine.Fails? then
      w.(zone := zone, containers := With(w.containers, slug, f.engine.leaves),
         rows := Persist(w.rows, id, Failed, f.update))
    else
      w.(zone := zone, containers := w.containers + {slug}, ports := w.ports + {slug},
         rows := Persist(w.rows, id, Running, f.update))
  }

  function DeprovisionStep(cfg: Setup, w: World, id: string, f: Fates): World
    requires id in w.rows
  {
    var slug := w.rows[id].slug;
    if f.engine.Fails? then
      w.(ports := w.ports - {slug}, containers := With(w.containers, slug, f.engine.leaves && slug in w.containers),
         rows := Persist(w.rows, id, Failed, f.update))
    else
      w.(ports := w.ports - {slug}, containers := w.containers - {slug},
         zone := if cfg.Usable(slug) && !f.dns.Refused? then w.zone - {A(TenantHost(slug, cfg.base))} else w.zone,
         rows := Persist(w.rows, id, Stopped, f.update))
  }

  // ---------------------------------------------------------------- one site's share of the world

  /** Everything about one site: its status, and what is out there under its slug. */
  datatype View = View(status: Status, published: bool, container: bool, pointer: Option<string>)

  function PointerOf(cfg: Setup, zone: Pointers, slug: string): Option<string> {
    if cfg.Dns? && A(TenantHost(slug, cfg.base)) in zone then Some(zone[A(TenantHost(slug, cfg.base))]) else None
  }

  function ViewOf(cfg: Setup, w: World, id: string): View
    requires id in w.rows
  {
    var r := w.rows[id];
    View(r.status, r.slug in w.ports, r.slug in w.containers, PointerOf(cfg, w.zone, r.slug))
  }

  function ProvisionView(cfg: Setup, slug: string, v: View, f: Fates): View {
    var status := if f.update.Refused? then v.status else Failed;
    var pointer := if cfg.Usable(slug) && !f.dns.Refused? then Some(cfg.edgeIP) else v.pointer;
    if cfg.Dns? && !(cfg.Usable(slug) && f.dns.Done?) then View(status, v.published, v.container, pointer)
    else if f.engine.Fails? then View(status, v.published, f.engine.leaves, pointer)
    else View(if f.update.Refused? then v.status else Running, true, true, pointer)
  }

  function DeprovisionView(cfg: Setup, slug: string, v: View, f: Fates): View {
    var status := if f.update.Refused? then v.status else if f.engine.Fails? then Failed else Stopped;
    if f.engine.Fails? then View(status, false, f.engine.leaves && v.container, v.pointer)
    else View(status, false, false, if cfg.Usable(slug) && !f.dns.Refused? then None else v.pointer)
  }

  ghost predicate UniqueSlugs(rows: map<string, Row>) {
    forall i, j :: i in rows && j in rows && i != j ==> rows[i].slug != rows[j].slug
  }

  /** From `w` to `w'` at most one site's status and what is out there under its slug have changed. */
  ghost predicate OnlySite(cfg: Setup, w: World, w': World, id: string)
    requires id in w.rows
  {
    var slug := w.rows[id].slug;
    && w'.rows.Keys == w.rows.Keys
    && w'.rows[id] == w.rows[id].(status := w'.rows[id].status)
    && (forall j :: j in w.rows && j != id ==> w'.rows[j] == w.rows[j])
    && (forall s :: s != slug ==> (s in w'.ports <==> s in w.ports) && (s in w'.containers <==> s in w.containers))
    && (forall k: Key :: (cfg.Dns? ==> k != A(TenantHost(slug, cfg.base))) ==> SameAt(w'.zone, w.zone, k))
  }

  lemma ProvisionIsLocal(cfg: Setup, w: World, id: string, f: Fates)
    requires id in w.rows
    ensures var w' := ProvisionStep(cfg, w, id, f);
            OnlySite(cfg, w, w', id) && ViewOf(cfg, w', id) == ProvisionView(cfg, w.rows[id].slug, ViewOf(cfg, w, id), f)
  {
  }

  lemma DeprovisionIsLocal(cfg: Setup, w: World, id: string, f: Fates)
    requires id in w.rows
    ensures var w' := DeprovisionStep(cfg, w, id, f);
            OnlySite(cfg, w, w', id) && ViewOf(cfg, w', id) == DeprovisionView(cfg, w.rows[id].slug, ViewOf(cfg, w, id), f)
  {
  }

  /** What changes for one site only is invisible to the others. */
  lemma OthersUnaffected(cfg: Setup, w: World, w': World, id: string, j: string)
    requires UniqueSlugs(w.rows) && id in w.rows && j in w.rows && j != id && OnlySite(cfg, w, w', id)
    ensures ViewOf(cfg, w', j) == ViewOf(cfg, w, j) && w'.rows[j] == w.rows[j]
  {
    var mine, theirs := w.rows[id].slug, w.rows[j].slug;
    if cfg.Dns? {
      if TenantHost(theirs, cfg.base) == TenantHost(mine, cfg.base) {
        HostInjective(theirs, mine, cfg.base);
      }
      assert SameAt(w'.zone, w.zone, A(TenantHost(theirs, cfg.base)));
    }
  }

  // ---------------------------------------------------------------- one watcher and its surroundings

  predicate Owns(region: string, r: Row) {
    region == "" || r.region == region
  }

  function Listed(rows: map<string, Row>, region: string, status: Status): set<string> {
    set id | id in rows && rows[id].status == status && Owns(region, rows[id])
  }

  /** Where the watcher is in its tick: the sites it listed and has not come to yet. */
  datatype Phase = Idle | Draining(pending: set<string>) | TearingDown(doomed: set<string>)

  datatype System = System(world: World, phase: Phase)

  datatype Event =
    // Operators and the API.
    | Insert(id: string, slug: string, region: string)
    | RequestTeardown(id: string)
    | Retry(id: string)
    // The watcher. A listing that fails yields no sites.
    | BeginTick(listed: bool)
    | Provision(id: string, fates: Fates)
    | ListDoomed(listed: bool)
    | Deprovision(id: string, fates: Fates)
    | EndTick

  function SetStatus(w: World, id: string, status: Status): World {
    if id in w.rows then w.(rows := w.rows[id := w.rows[id].(status := status)]) else w
  }

  function Inserted(w: World, id: string, slug: string, where: string): World {
    w.(rows := w.rows[id := Row(slug, where, Pending)])
  }

  /** Events that cannot happen in a state leave it as it is. */
  function Step(cfg: Setup, region: string, s: System, e: Event): System {
    match e
    case Insert(id, slug, where) =>
      if id in s.world.rows || exists j :: j in s.world.rows && s.world.rows[j].slug == slug then s
      else s.(world := Inserted(s.world, id, slug, where))
    case RequestTeardown(id) => s.(world := SetStatus(s.world, id, Deprovisioning))
    case Retry(id) => s.(world := SetStatus(s.world, id, Pending))
    case BeginTick(listed) =>
      if s.phase.Idle? then
        s.(phase := Draining(if listed then Listed(s.world.rows, region, Pending) else {}))
      else s
    case Provision(id, f) =>
      if s.phase.Draining? && id in s.phase.pending && id in s.world.rows then
        System(ProvisionStep(cfg, s.world, id, f), Draining(s.phase.pending - {id}))
      else s
    case ListDoomed(listed) =>
      if s.phase == Draining({}) then
        s.(phase := TearingDown(if listed then Listed(s.world.rows, region, Deprovisioning) else {}))
      else s
    case Deprovision(id, f) =>
      if s.phase.TearingDown? && id in s.phase.doomed && id in s.world.rows then
        System(DeprovisionStep(cfg, s.world, id, f), TearingDown(s.phase.doomed - {id}))
      else s
    case EndTick => if s.phase == TearingDown({}) then s.(phase := Idle) else s
  }

  const EMPTY := System(World(map[], {}, {}, map[]), Idle)

  function Run(cfg: Setup, region: string, events: seq<Event>): System {
    if events == [] then EMPTY
    else Step(cfg, region, Run(cfg, region, events[..|events| - 1]), events[|events| - 1])
  }

  // ---------------------------------------------------------------- safety

  /** A Running site is routed, has a container and, with DNS on, resolves to the edge; a Stopped one is
      not routed and has no container. */
  predicate SafeView(cfg: Setup, slug: string, v: View) {
    && (v.status.Running? ==>
          v.published && v.container && (cfg.Dns? ==> slug != "" && v.pointer == Some(cfg.edgeIP)))
    && (v.status.Stopped? ==> !v.published && !v.container)
  }

  function Todo(p: Phase): set<string> {
    match p
    case Idle => {}
    case Draining(pending) => pending
    case TearingDown(doomed) => doomed
  }

  function SlugsOf(rows: map<string, Row>): set<string> {
    set id | id in rows :: rows[id].slug
  }

  function HostKeys(cfg: Setup, slugs: set<string>): set<Key> {
    if cfg.Dns? then set s | s in slugs :: A(TenantHost(s, cfg.base)) else {}
  }

  /** Nothing is out there for a slug that no row has, and every record points at the edge. */
  ghost predicate NoStrays(cfg: Setup, w: World, slugs: set<string>) {
    && w.ports <= slugs
    && w.containers <= slugs
    && w.zone.Keys <= HostKeys(cfg, slugs)
    && (cfg.Dns? ==> forall k :: k in w.zone ==> w.zone[k] == cfg.edgeIP)
  }

  ghost predicate AllSafe(cfg: Setup, w: World) {
    forall id :: id in w.rows ==> SafeView(cfg, w.rows[id].slug, ViewOf(cfg, w, id))
  }

  /** A site the watcher is going to act on, from a snapshot however old, is neither Running nor Stopped. */
  ghost predicate Unsettled(rows: map<string, Row>, todo: set<string>) {
    forall id :: id in todo ==> id in rows && !rows[id].status.Running? && !rows[id].status.Stopped?
  }

  ghost predicate Inv(cfg: Setup, s: System) {
    && UniqueSlugs(s.world.rows)
    && NoStrays(cfg, s.world, SlugsOf(s.world.rows))
    && AllSafe(cfg, s.world)
    && Unsettled(s.world.rows, Todo(s.phase))
  }

  /** A change confined to one site leaves the slugs unique and the other sites safe. */
  lemma LocalChange(cfg: Setup, w: World, w': World, id: string)
    requires UniqueSlugs(w.rows) && AllSafe(cfg, w) && id in w.rows && OnlySite(cfg, w, w', id)
    requires SafeView(cfg, w.rows[id].slug, ViewOf(cfg, w', id))
    ensures UniqueSlugs(w'.rows) && AllSafe(cfg, w')
  {
    forall j | j in w'.rows
      ensures SafeView(cfg, w'.rows[j].slug, ViewOf(cfg, w', j))
    {
      if j != id {
        OthersUnaffected(cfg, w, w', id, j);
      }
    }
    forall i, j | i in w'.rows && j in w'.rows && i != j
      ensures w'.rows[i].slug != w'.rows[j].slug
    {
      assert w.rows[i].slug != w.rows[j].slug;
    }
  }

  lemma SameSlugs(cfg: Setup, w: World, w': World, id: string)
    requires id in w.rows && OnlySite(cfg, w, w', id)
    ensures SlugsOf(w'.rows) == SlugsOf(w.rows)
  {
  }

  lemma SiteStepLeavesNoStrays(cfg: Setup, w: World, id: string, f: Fates, slugs: set<string>)
    requires NoStrays(cfg, w, slugs) && id in w.rows && w.rows[id].slug in slugs
    ensures NoStrays(cfg, ProvisionStep(cfg, w, id, f), slugs)
    ensures NoStrays(cfg, DeprovisionStep(cfg, w, id, f), slugs)
  {
  }

  lemma SiteStepIsSafe(cfg: Setup, w: World, id: string, f: Fates)
    requires id in w.rows && SafeView(cfg, w.rows[id].slug, ViewOf(cfg, w, id))
    requires !w.rows[id].status.Running? && !w.rows[id].status.Stopped?
    ensures SafeView(cfg, w.rows[id].slug, ViewOf(cfg, ProvisionStep(cfg, w, id, f), id))
    ensures SafeView(cfg, w.rows[id].slug, ViewOf(cfg, DeprovisionStep(cfg, w, id, f), id))
  {
    ProvisionIsLocal(cfg, w, id, f);
    DeprovisionIsLocal(cfg, w, id, f);
  }

  /** A step on a listed site keeps everything but that site's place on the list, which it gives up. */
  lemma SiteStepKeepsInv(cfg: Setup, s: System, id: string, f: Fates, w': World, phase: Phase)
    requires Inv(cfg, s) && id in Todo(s.phase) && Todo(phase) == Todo(s.phase) - {id}
    requires w' == ProvisionStep(cfg, s.world, id, f) || w' == DeprovisionStep(cfg, s.world, id, f)
    ensures Inv(cfg, System(w', phase))
  {
    var w := s.world;
    assert w.rows[id].slug in SlugsOf(w.rows);
    SiteStepLeavesNoStrays(cfg, w, id, f, SlugsOf(w.rows));
    SiteStepIsSafe(cfg, w, id, f);
    assert OnlySite(cfg, w, w', id) by {
      ProvisionIsLocal(cfg, w, id, f);
      DeprovisionIsLocal(cfg, w, id, f);
    }
    LocalChange(cfg, w, w', id);
    SameSlugs(cfg, w, w', id);
  }

  lemma OperatorStepKeepsInv(cfg: Setup, s: System, id: string, status: Status)
    requires Inv(cfg, s) && (status.Pending? || status.Deprovisioning?)
    ensures Inv(cfg, s.(world := SetStatus(s.world, id, status)))
  {
    if id in s.world.rows {
      var w' := SetStatus(s.world, id, status);
      LocalChange(cfg, s.world, w', id);
      SameSlugs(cfg, s.world, w', id);
    }
  }

  lemma InsertStaysSafe(cfg: Setup, w: World, id: string, slug: string, where: string)
    requires UniqueSlugs(w.rows) && AllSafe(cfg, w) && id !in w.rows
    requires forall j :: j in w.rows ==> w.rows[j].slug != slug
    ensures UniqueSlugs(Inserted(w, id, slug, where).rows) && AllSafe(cfg, Inserted(w, id, slug, where))
  {
  }

  lemma InsertLeavesNoStrays(cfg: Setup, w: World, id: string, slug: string, where: string)
    requires NoStrays(cfg, w, SlugsOf(w.rows)) && id !in w.rows
    ensures NoStrays(cfg, Inserted(w, id, slug, where), SlugsOf(Inserted(w, id, slug, where).rows))
  {
    var w' := Inserted(w, id, slug, where);
    assert w'.rows[id].slug == slug;
    assert forall j :: j in w.rows ==> w'.rows[j] == w.rows[j];
    assert SlugsOf(w.rows) <= SlugsOf(w'.rows);
  }

  lemma InsertKeepsInv(cfg: Setup, s: System, id: string, slug: string, where: string)
    requires Inv(cfg, s) && id !in s.world.rows
    requires forall j :: j in s.world.rows ==> s.world.rows[j].slug != slug
    ensures Inv(cfg, s.(world := Inserted(s.world, id, slug, where)))
  {
    InsertStaysSafe(cfg, s.world, id, slug, where);
    InsertLeavesNoStrays(cfg, s.world, id, slug, where);
  }

  lemma StepKeepsInv(cfg: Setup, region: string, s: System, e: Event)
    requires Inv(cfg, s)
    ensures Inv(cfg, Step(cfg, region, s, e))
  {
    match e
    case Insert(id, slug, where) =>
      if id !in s.world.rows && forall j :: j in s.world.rows ==> s.world.rows[j].slug != slug {
        InsertKeepsInv(cfg, s, id, slug, where);
      }
    case RequestTeardown(id) =>
      OperatorStepKeepsInv(cfg, s, id, Deprovisioning);
    case Retry(id) =>
      OperatorStepKeepsInv(cfg, s, id, Pending);
    case Provision(id, f) =>
      if s.phase.Draining? && id in s.phase.pending && id in s.world.rows {
        SiteStepKeepsInv(cfg, s, id, f, ProvisionStep(cfg, s.world, id, f), Draining(s.phase.pending - {id}));
      }
    case Deprovision(id, f) =>
      if s.phase.TearingDown? && id in s.phase.doomed && id in s.world.rows {
        SiteStepKeepsInv(cfg, s, id, f, DeprovisionStep(cfg, s.world, id, f), TearingDown(s.phase.doomed - {id}));
      }
    case BeginTick(listed) =>
    case ListDoomed(listed) =>
    case EndTick =>
  }

  /** Safety over all runs: whatever fails and whatever operators ask for between the watcher's steps. */
  lemma {:induction false} EveryRunIsSafe(cfg: Setup, region: string, events: seq<Event>)
    ensures Inv(cfg, Run(cfg, region, events))
  {
    if events != [] {
      EveryRunIsSafe(cfg, region, events[..|events| - 1]);
      StepKeepsInv(cfg, region, Run(cfg, region, events[..|events| - 1]), events[|events| - 1]);
    }
  }

  /** Certificates follow the life cycle in every run, DNS on or off: the host of every Running single-label
      site passes the policy backed by the port map; no Stopped site's host does. */
  lemma CertificatesFollowLifecycle(cfg: Setup, base: string, region: string, events: seq<Event>, id: string)
    requires id in Run(cfg, region, events).world.rows
    ensures var w := Run(cfg, region, events).world;
            var slug := w.rows[id].slug;
            var verdict := HostPolicy(base, Some(w.ports), TenantHost(slug, base));
            && (w.rows[id].status.Running? && SingleLabel(slug) ==> verdict == Accepted)
            && (w.rows[id].status.Stopped? ==> verdict != Accepted)
  {
    var w := Run(cfg, region, events).world;
    EveryRunIsSafe(cfg, region, events);
    assert SafeView(cfg, w.rows[id].slug, ViewOf(cfg, w, id));
    PolicyOnTenantHost(base, Some(w.ports), w.rows[id].slug);
  }

  // ---------------------------------------------------------------- repairing the zone

  /** The slugs of the sites that are not Stopped. */
  function KeptSlugs(rows: map<string, Row>): set<string> {
    set id | id in rows && !rows[id].status.Stopped? :: rows[id].slug
  }

  /** Teardown goes on when the DNS removal fails. Reconciling with the slugs of the sites that are not Stopped
      puts that right in every reachable state, whatever else is in the zone: no Stopped site's name is left
      at the edge, every other site's is there. */
  lemma ReconcileRepairs(cfg: Setup, region: string, events: seq<Event>, zone: Pointers, want: set<string>, id: string)
    requires cfg.Dns? && id in Run(cfg, region, events).world.rows
    requires var w := Run(cfg, region, events).world; AgreeOnSites(cfg, w, zone)
    requires forall s :: TenantHost(s, cfg.base) in want <==> s in KeptSlugs(Run(cfg, region, events).world.rows)
    ensures var row := Run(cfg, region, events).world.rows[id];
            PointerOf(cfg, Target(zone, want, cfg.edgeIP), row.slug) == if row.status.Stopped? then None else Some(cfg.edgeIP)
  {
    EveryRunIsSafe(cfg, region, events);
    RepairedAt(cfg, Run(cfg, region, events).world, zone, want, id);
  }

  /** The zone holds what the world says for every site. */
  ghost predicate AgreeOnSites(cfg: Setup, w: World, zone: Pointers) {
    forall id :: id in w.rows ==> PointerOf(cfg, zone, w.rows[id].slug) == PointerOf(cfg, w.zone, w.rows[id].slug)
  }

  lemma RepairedAt(cfg: Setup, w: World, zone: Pointers, want: set<string>, id: string)
    requires cfg.Dns? && id in w.rows && UniqueSlugs(w.rows) && NoStrays(cfg, w, SlugsOf(w.rows)) && AgreeOnSites(cfg, w, zone)
    requires forall s :: TenantHost(s, cfg.base) in want <==> s in KeptSlugs(w.rows)
    ensures PointerOf(cfg, Target(zone, want, cfg.edgeIP), w.rows[id].slug)
         == if w.rows[id].status.Stopped? then None else Some(cfg.edgeIP)
  {
    var slug := w.rows[id].slug;
    var host := TenantHost(slug, cfg.base);
    assert host in want <==> !w.rows[id].status.Stopped? by {
      assert slug in KeptSlugs(w.rows) <==> exists j :: j in w.rows && !w.rows[j].status.Stopped? && w.rows[j].slug == slug;
    }
    TargetAt(zone, want, cfg.edgeIP, A(host));
    assert PointerOf(cfg, zone, slug) == PointerOf(cfg, w.zone, slug);
  }
}
