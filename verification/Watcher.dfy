/** The watcher over live objects: it mutates sites it shares with the repository, the port map, the
    containers and the zone. What it does to them is what the state machine of Lifecycle says. */
module Watcher {
  import opened Zones
  import opened HostNames
  import opened Lifecycle
  import opened Requests
  import opened Sites
  import D = DnsManager
  import R = TickRuns
  import T = TwoWatchers

  const TENANT_PORT := 8080

  /** A site acted on, the fates its calls met, and the calls: the requests for DNS and the commands for Docker. */
  datatype Claim = Claim(id: string, fates: Fates, sent: seq<Request>, cmds: seq<Command>)

  /** The fates of a claim are what its calls answered; the update always gets through. */
  predicate Follows(cfg: Setup, usable: bool, slug: string, status: Status, c: Claim) {
    && c.fates.update.Done?
    && if status.Pending? then ProvisionFollows(cfg, usable, slug, c) else DeprovisionFollows(cfg, usable, slug, c)
  }

  /** The DNS half of a step passes exactly when there is no DNS or its requests were all done; without a
      usable configuration there are none. */
  predicate DnsAnswered(cfg: Setup, usable: bool, slug: string, fate: CallFate, sent: seq<Request>) {
    && (fate.Done? <==> cfg.NoDns? || (cfg.Usable(slug) && usable && AllDone(sent)))
    && (!(cfg.Usable(slug) && usable) ==> sent == [])
  }

  /** The fates of a provisioning step are what its calls answered. */
  predicate ProvisionFollows(cfg: Setup, usable: bool, slug: string, c: Claim) {
    && DnsAnswered(cfg, usable, slug, c.fates.dns, c.sent)
    && if c.fates.dns.Done? then ProvisionRun(slug, c.cmds, c.fates.engine.Succeeds?) else c.cmds == []
  }

  predicate DeprovisionFollows(cfg: Setup, usable: bool, slug: string, c: Claim) {
    && TeardownRun(slug, c.cmds, c.fates.engine.Succeeds?)
    && if c.fates.engine.Succeeds? then DnsAnswered(cfg, usable, slug, c.fates.dns, c.sent) else c.sent == []
  }

  /** Dismantled, off the zone, Stopped: a teardown that succeeds. */
  lemma TornDown(cfg: Setup, w: World, id: string, slug: string, f: Fates)
    requires id in w.rows && w.rows[id].slug == slug && f.engine.Succeeds? && f.update.Done?
    ensures var zone := if cfg.Usable(slug) && !f.dns.Refused? then w.zone - {A(TenantHost(slug, cfg.base))} else w.zone;
            DeprovisionStep(cfg, w, id, f)
              == World(Persist(Persist(w.rows, id, Stopped, Done), id, Stopped, Done), w.ports - {slug},
                       With(w.containers, slug, false), zone)
  {
    assert Persist(Persist(w.rows, id, Stopped, Done), id, Stopped, Done) == Persist(w.rows, id, Stopped, Done);
  }

  /** On the zone, then launched or Failed: a provisioning whose DNS half passes. */
  lemma LaunchedStep(cfg: Setup, w: World, id: string, slug: string, f: Fates)
    requires id in w.rows && w.rows[id].slug == slug && f.dns.Done? && f.update.Done? && (cfg.Dns? ==> cfg.Usable(slug))
    ensures var ok := f.engine.Succeeds?;
            ProvisionStep(cfg, w, id, f)
              == World(Persist(w.rows, id, if ok then Running else Failed, Done), if ok then w.ports + {slug} else w.ports,
                       With(w.containers, slug, ok || f.engine.leaves),
                       if cfg.Dns? then w.zone[A(TenantHost(slug, cfg.base)) := cfg.edgeIP] else w.zone)
  {
  }

  /** Failed without a container, with the record placed or not: a provisioning whose DNS half does not pass. */
  lemma UnplacedStep(cfg: Setup, w: World, id: string, slug: string, f: Fates)
    requires id in w.rows && w.rows[id].slug == slug && cfg.Dns? && !f.dns.Done? && f.update.Done?
    ensures ProvisionStep(cfg, w, id, f)
         == (if cfg.Usable(slug) && !f.dns.Refused? then w.(zone := w.zone[A(TenantHost(slug, cfg.base)) := cfg.edgeIP]) else w)
            .(rows := Persist(w.rows, id, Failed, Done))
  {
  }

  /** The fate of a DNS call, from what it answered and what it left. */
  function FateOf(before: Pointers, after: Pointers, ok: bool): CallFate {
    if ok then Done else if after == before then Refused else Unanswered
  }

  class Watcher {
    const sites: MemorySiteRepo
    const dns: Option<D.Manager>
    const provisioner: DockerProvisioner
    const portMap: MemoryPortMap
    const region: string

    constructor (sites: MemorySiteRepo, dns: Option<D.Manager>, provisioner: DockerProvisioner,
                 portMap: MemoryPortMap, region: string)
      requires sites.Valid() && (dns.Some? ==> dns.value.Valid())
      ensures this.sites == sites && this.dns == dns && this.provisioner == provisioner
      ensures this.portMap == portMap && this.region == region && Valid()
    {
      this.sites, this.dns, this.provisioner, this.portMap, this.region := sites, dns, provisioner, portMap, region;
      new;
      KindsDiffer();
    }

    function Config(): Setup {
      if dns.None? then NoDns else Dns(dns.value.baseDomain, dns.value.edgeIP)
    }

    ghost function Managers(): set<object> {
      if dns.None? then {} else {dns.value, dns.value.provider.Store()}
    }

    ghost predicate DnsValid()
      reads Managers()
    {
      dns.Some? ==> dns.value.Valid()
    }

    ghost function Zone(): Pointers
      reads Managers()
    {
      if dns.None? then map[] else dns.value.zone
    }

    /** The requests made for DNS. */
    ghost function DnsLog(): seq<Request>
      reads Managers()
    {
      if dns.None? then [] else dns.value.log
    }

    /** Whether the DNS provider, if there is one, has its configuration. */
    predicate DnsUsable() {
      dns.None? || dns.value.provider.Usable()
    }

    ghost function Rows(): map<string, Row>
      reads sites, sites.sites.Values
    {
      map id | id in sites.sites :: Row(sites.sites[id].slug, sites.sites[id].region, sites.sites[id].status)
    }

    ghost function TheWorld(): World
      reads sites, sites.sites.Values, portMap, provisioner.host, Managers()
    {
      World(Rows(), portMap.ports.Keys, provisioner.host.containers, Zone())
    }

    /** The sites, the DNS side and the rest share no object. */
    ghost predicate Apart()
      reads sites
    {
      && sites !in Managers() && portMap !in Managers() && provisioner.host !in Managers()
      && forall id :: id in sites.sites ==> sites.sites[id] !in {sites, portMap, provisioner.host} + Managers()
    }

    ghost predicate Valid()
      reads sites, Managers()
    {
      sites.Valid() && Apart() && DnsValid()
    }

    /** As it must, its objects being of other kinds. */
    lemma KindsDiffer()
      requires DnsValid()
      ensures Apart()
    {
      if dns.Some? {
        dns.value.StoreKinds();
      }
    }

    /** The repository holds this very object. */
    ghost predicate Holds(site: Site)
      reads sites
    {
      sites.Valid() && site.id in sites.sites && sites.sites[site.id] == site
    }

    /** What a step that touches one site, and nothing of the DNS side, does to the world. */
    twostate lemma Local(site: Site)
      requires old(Valid()) && sites.Valid() && sites.sites == old(sites.sites)
      requires site.id in sites.sites && sites.sites[site.id] == site
      requires forall id :: id in sites.sites && id != site.id ==> unchanged(sites.sites[id])
      requires unchanged(Managers())
      ensures Valid() && DnsLog() == old(DnsLog())
      ensures TheWorld() == World(Persist(old(Rows()), site.id, site.status, Done), portMap.ports.Keys,
                                  provisioner.host.containers, old(Zone()))
    {
      assert dns.Some? ==> dns.value.zone == old(dns.value.zone) && dns.value.log == old(dns.value.log);
    }

    /** What a step on the DNS side alone does to the world. */
    twostate lemma Elsewhere()
      requires old(Valid()) && DnsValid() && unchanged(sites) && unchanged(portMap) && unchanged(provisioner.host)
      requires forall id :: id in sites.sites ==> unchanged(sites.sites[id])
      ensures Valid() && TheWorld() == old(TheWorld()).(zone := Zone())
    {
      assert Rows() == old(Rows());
    }

    /** The DNS half of provisioning: it passes exactly when there is no DNS or every request for it was done. */
    method EnsureRecord(slug: string) returns (ok: bool, ghost fate: CallFate, ghost sent: seq<Request>)
      requires Valid()
      modifies Managers()
      ensures Valid() && sites.sites == old(sites.sites) && provisioner.host.log == old(provisioner.host.log)
      ensures DnsLog() == old(DnsLog()) + sent && DnsAnswered(Config(), DnsUsable(), slug, fate, sent)
      ensures ok == fate.Done?
      ensures TheWorld() == if Config().Usable(slug) && !fate.Refused?
                            then old(TheWorld()).(zone := old(Zone())[A(TenantHost(slug, Config().base)) := Config().edgeIP])
                            else old(TheWorld())
    {
      ok, fate, sent := true, Done, [];
      assert DnsLog() + [] == DnsLog();
      if dns.Some? {
        ok, sent := dns.value.EnsureSlug(slug);
        fate := FateOf(old(Zone()), Zone(), ok);
      }
      Elsewhere();
    }

    /** The DNS half of teardown; that it failed is not fatal. */
    method RemoveRecord(slug: string) returns (ghost fate: CallFate, ghost sent: seq<Request>)
      requires Valid()
      modifies Managers()
      ensures Valid() && sites.sites == old(sites.sites) && provisioner.host.log == old(provisioner.host.log)
      ensures DnsLog() == old(DnsLog()) + sent && DnsAnswered(Config(), DnsUsable(), slug, fate, sent)
      ensures TheWorld() == if Config().Usable(slug) && !fate.Refused?
                            then old(TheWorld()).(zone := old(Zone()) - {A(TenantHost(slug, Config().base))})
                            else old(TheWorld())
    {
      fate, sent := Done, [];
      assert DnsLog() + [] == DnsLog();
      if dns.Some? {
        var ok;
        ok, sent := dns.value.RemoveSlug(slug);
        fate := FateOf(old(Zone()), Zone(), ok);
      }
      Elsewhere();
    }

    /** Persisting a site the repository holds succeeds and changes nothing: it is the repository's own object. */
    method Save(site: Site) returns (ok: bool)
      requires Valid() && Holds(site)
      modifies sites
      ensures ok && Valid() && Holds(site) && sites.sites == old(sites.sites)
      ensures TheWorld() == old(TheWorld()) && DnsLog() == old(DnsLog())
    {
      ok := sites.Update(site);
      Local(site);
      assert Rows() == old(Rows());
    }

    method Mark(site: Site, status: Status, lastError: string)
      requires Valid() && Holds(site)
      modifies site, sites
      ensures Valid() && sites.sites == old(sites.sites) && DnsLog() == old(DnsLog())
      ensures site.status == status && site.lastError == lastError
      ensures TheWorld() == old(TheWorld()).(rows := Persist(old(Rows()), site.id, status, Done))
    {
      site.status, site.lastError := status, lastError;
      Local(site);
      var _ := Save(site);
    }

    /** Container, port map, status. */
    method Launch(site: Site) returns (ok: bool, ghost cmds: seq<Command>)
      requires Valid() && Holds(site)
      modifies site, portMap, provisioner.host
      ensures Valid() && Holds(site) && sites.sites == old(sites.sites) && DnsLog() == old(DnsLog())
      ensures provisioner.host.log == old(provisioner.host.log) + cmds && ProvisionRun(site.slug, cmds, ok)
      ensures if ok then site.status == Running && site.lastError == "" else site.status == Failed && site.lastError != ""
      ensures ok ==> site.slug in portMap.ports && portMap.ports[site.slug] == 8080
      ensures var w, slug := old(TheWorld()), site.slug;
              TheWorld() == World(Persist(w.rows, site.id, site.status, Done), if ok then w.ports + {slug} else w.ports,
                                  With(w.containers, slug, ok || slug in provisioner.host.containers), w.zone)
    {
      ok, cmds := provisioner.Provision(site);
      if ok {
        portMap.Set(site.slug, TENANT_PORT);
        // A provisioner should have set this already.
        site.status := Running;
        site.lastError := "";
      }
      Local(site);
    }

    /** Traffic first, then the container. A site whose container would not go is Failed. */
    method Dismantle(site: Site) returns (ok: bool, ghost cmds: seq<Command>)
      requires Valid() && Holds(site)
      modifies site, portMap, provisioner.host
      ensures Valid() && Holds(site) && sites.sites == old(sites.sites) && DnsLog() == old(DnsLog())
      ensures provisioner.host.log == old(provisioner.host.log) + cmds && TeardownRun(site.slug, cmds, ok)
      ensures if ok then site.status == Stopped else site.status == Failed && site.lastError != ""
      ensures var w, slug := old(TheWorld()), site.slug;
              TheWorld() == World(Persist(w.rows, site.id, site.status, Done), w.ports - {slug},
                                  With(w.containers, slug, !ok && slug in provisioner.host.containers && slug in w.containers),
                                  w.zone)
    {
      portMap.Set(site.slug, 0);
      ok, cmds := provisioner.Deprovision(site);
      Local(site);
    }

    /** The state machine's step, with the fates that the requests and commands of this very step settle. */
    method ProvisionOne(site: Site) returns (ghost c: Claim)
      requires Valid() && Holds(site)
      modifies site, sites, portMap, provisioner.host, Managers()
      ensures Valid() && sites.sites == old(sites.sites) && c.id == site.id && c.fates.update.Done?
      ensures TheWorld() == ProvisionStep(Config(), old(TheWorld()), site.id, c.fates)
      ensures DnsLog() == old(DnsLog()) + c.sent && provisioner.host.log == old(provisioner.host.log) + c.cmds
      ensures ProvisionFollows(Config(), DnsUsable(), site.slug, c)
      ensures site.status.Failed? ==> site.lastError != ""
      ensures site.status.Running? ==> site.lastError == "" && site.slug in portMap.ports && portMap.ports[site.slug] == 8080
    {
      var ok;
      ghost var w, fate, sent, cmds := TheWorld(), Done, [], [];
      ok, fate, sent := EnsureRecord(site.slug);
      if !ok {
        c := Claim(site.id, Fates(fate, Succeeds, Done), sent, []);
        Mark(site, Failed, "dns: " + OUTPUT);
        UnplacedStep(Config(), w, site.id, site.slug, c.fates);
      } else {
        ok, cmds := Launch(site);
        c := Claim(site.id, Fates(fate, if ok then Succeeds else Fails(site.slug in provisioner.host.containers), Done),
                   sent, cmds);
        var _ := Save(site);
        LaunchedStep(Config(), w, site.id, site.slug, c.fates);
      }
    }

    method DeprovisionOne(site: Site) returns (ghost c: Claim)
      requires Valid() && Holds(site)
      modifies site, sites, portMap, provisioner.host, Managers()
      ensures Valid() && sites.sites == old(sites.sites) && c.id == site.id && c.fates.update.Done?
      ensures TheWorld() == DeprovisionStep(Config(), old(TheWorld()), site.id, c.fates)
      ensures DnsLog() == old(DnsLog()) + c.sent && provisioner.host.log == old(provisioner.host.log) + c.cmds
      ensures DeprovisionFollows(Config(), DnsUsable(), site.slug, c)
      ensures site.status.Failed? ==> site.lastError != ""
    {
      var ok;
      ghost var w, fate, sent, cmds := TheWorld(), Done, [], [];
      ok, cmds := Dismantle(site);
      if !ok {
        c := Claim(site.id, Fates(Done, Fails(site.slug in provisioner.host.containers), Done), [], cmds);
        assert DnsLog() + [] == DnsLog();
        var _ := Save(site);
      } else {
        fate, sent := RemoveRecord(site.slug);
        c := Claim(site.id, Fates(fate, Succeeds, Done), sent, cmds);
        Mark(site, Stopped, site.lastError);
        TornDown(Config(), w, site.id, site.slug, c.fates);
      }
    }

    // -------------------------------------------------------------- one tick

    /** Failed sites say why. */
    ghost predicate Explained()
      reads sites, sites.sites.Values
    {
      forall id :: id in sites.sites && sites.sites[id].status.Failed? ==> sites.sites[id].lastError != ""
    }

    method ClaimOne(site: Site, status: Status) returns (ghost c: Claim)
      requires Valid() && Holds(site) && (status.Pending? || status.Deprovisioning?)
      modifies site, sites, portMap, provisioner.host, Managers()
      ensures Valid() && sites.sites == old(sites.sites) && (old(Explained()) ==> Explained())
      ensures c.id == site.id && c.fates.update.Done?
      ensures TheWorld() == SiteStep(Config(), old(TheWorld()), status, c)
      ensures DnsLog() == old(DnsLog()) + c.sent && provisioner.host.log == old(provisioner.host.log) + c.cmds
      ensures Follows(Config(), DnsUsable(), site.slug, status, c)
    {
      if status.Pending? {
        c := ProvisionOne(site);
      } else {
        c := DeprovisionOne(site);
      }
    }

    /** The world and the logs are where acting on `claims` leads from `w0` and the logs of then. */
    ghost predicate Claimed(w0: World, sent0: seq<Request>, given0: seq<Command>, status: Status, claims: seq<Claim>)
      reads sites, sites.sites.Values, portMap, provisioner.host, Managers()
    {
      && TheWorld() == Replay(Config(), w0, status, claims)
      && DnsLog() == sent0 + Sent(claims) && provisioner.host.log == given0 + Given(claims)
      && AllFollow(Config(), DnsUsable(), w0.rows, status, claims)
    }

    lemma NoneClaimed(status: Status)
      ensures Claimed(TheWorld(), DnsLog(), provisioner.host.log, status, [])
    {
      assert DnsLog() + Sent([]) == DnsLog() && provisioner.host.log + Given([]) == provisioner.host.log;
    }

    /** Acts on a listed site if it is the watcher's. */
    method ClaimIfOwned(site: Site, status: Status, ghost w0: World, ghost sent0: seq<Request>,
                        ghost given0: seq<Command>, ghost before: seq<Claim>)
      returns (ghost claims: seq<Claim>)
      requires Valid() && Holds(site) && (status.Pending? || status.Deprovisioning?)
      requires Claimed(w0, sent0, given0, status, before) && site.id in w0.rows && w0.rows[site.id].slug == site.slug
      modifies site, sites, portMap, provisioner.host, Managers()
      ensures Valid() && sites.sites == old(sites.sites) && (old(Explained()) ==> Explained())
      ensures Claimed(w0, sent0, given0, status, claims)
      ensures Ids(claims) == Ids(before) + if region == "" || site.region == region then [site.id] else []
    {
      claims := before;
      if region == "" || site.region == region {
        ghost var c := ClaimOne(site, status);
        ReplayExtend(Config(), w0, status, claims, c);
        ClaimsExtend(Config(), DnsUsable(), w0.rows, status, claims, c, sent0, given0);
        claims := claims + [c];
      }
    }

    method ClaimAll(listed: seq<Site>, status: Status) returns (ghost claims: seq<Claim>)
      requires Valid() && (status.Pending? || status.Deprovisioning?)
      requires forall s :: s in listed ==> Holds(s)
      modifies sites, sites.sites.Values, portMap, provisioner.host, Managers()
      ensures Valid() && sites.sites == old(sites.sites) && (old(Explained()) ==> Explained())
      ensures Claimed(old(TheWorld()), old(DnsLog()), old(provisioner.host.log), status, claims)
      ensures Ids(claims) == Owned(listed, region)
    {
      claims := [];
      ghost var w0, sent0, given0 := TheWorld(), DnsLog(), provisioner.host.log;
      NoneClaimed(status);
      for i := 0 to |listed|
        invariant Valid() && sites.sites == old(sites.sites) && (old(Explained()) ==> Explained())
        invariant forall s :: s in listed ==> Holds(s)
        invariant Claimed(w0, sent0, given0, status, claims)
        invariant Ids(claims) == Owned(listed[..i], region)
      {
        var site := listed[i];
        assert site in listed && sites.sites[site.id] in old(sites.sites.Values);
        claims := ClaimIfOwned(site, status, w0, sent0, given0, claims);
        OwnedExtend(listed, region, i);
      }
      assert listed[..|listed|] == listed;
    }

    /** One tick, operators keeping off: every claimed site comes to the outcome that the calls made for it
        settle, the tick makes no other calls, and nothing else changes. */
    method Tick() returns (ghost first: seq<Claim>, ghost second: seq<Claim>)
      requires Valid() && UniqueSlugs(Rows())
      modifies sites, sites.sites.Values, portMap, provisioner.host, Managers()
      ensures Valid() && sites.sites == old(sites.sites) && (old(Explained()) ==> Explained())
      ensures Ticked(Config(), DnsUsable(), region, old(TheWorld()), TheWorld(), first, second)
      ensures R.RunFrom(Config(), region, System(old(TheWorld()), Idle),
                        R.TickEvents(Ids(first), Ids(second), Table(first + second))) == System(TheWorld(), Idle)
      ensures DnsLog() == old(DnsLog()) + (Sent(first) + Sent(second))
      ensures provisioner.host.log == old(provisioner.host.log) + (Given(first) + Given(second))
    {
      ghost var sent0, given0 := DnsLog(), provisioner.host.log;
      first := ClaimListed(Status.Pending);
      ghost var w1 := TheWorld();
      second := ClaimListed(Status.Deprovisioning);
      Grouping(sent0, Sent(first), Sent(second));
      Grouping(given0, Given(first), Given(second));
      TickReaches(Config(), DnsUsable(), region, old(TheWorld()), w1, first, second);
      TickedIsRun(Config(), DnsUsable(), region, old(TheWorld()), TheWorld(), first, second);
    }

    method ClaimListed(status: Status) returns (ghost claims: seq<Claim>)
      requires Valid() && (status.Pending? || status.Deprovisioning?)
      modifies sites, sites.sites.Values, portMap, provisioner.host, Managers()
      ensures Valid() && sites.sites == old(sites.sites) && (old(Explained()) ==> Explained())
      ensures TheWorld() == Replay(Config(), old(TheWorld()), status, claims)
      ensures DnsLog() == old(DnsLog()) + Sent(claims)
      ensures provisioner.host.log == old(provisioner.host.log) + Given(claims)
      ensures Covers(Config(), DnsUsable(), old(Rows()), region, status, claims)
    {
      var listed := ListOwned(status);
      claims := ClaimAll(listed, status);
    }

    /** A fresh listing, and what of it is the watcher's. */
    method ListOwned(status: Status) returns (listed: seq<Site>)
      requires Valid() && (status.Pending? || status.Deprovisioning?)
      ensures Valid() && TheWorld() == old(TheWorld()) && DnsLog() == old(DnsLog())
      ensures forall s :: s in listed ==> Holds(s)
      ensures Distinct(Owned(listed, region)) && SetOf(Owned(listed, region)) == Listed(Rows(), region, status)
    {
      if status.Pending? {
        listed := sites.Pending();
      } else {
        listed := sites.Deprovisioning();
      }
      assert dns.Some? ==> dns.value.zone == old(dns.value.zone) && dns.value.log == old(dns.value.log);
      assert Rows() == old(Rows());
      OwnedDistinct(listed, region);
      ListedIDs(listed, status);
    }

    /** The owned sites of a listing are those the rows say. */
    lemma ListedIDs(listed: seq<Site>, status: Status)
      requires Valid()
      requires forall s :: s in listed <==> s.id in sites.sites && sites.sites[s.id] == s && s.status == status
      ensures SetOf(Owned(listed, region)) == Listed(Rows(), region, status)
    {
      forall id
        ensures id in Owned(listed, region) <==> id in Listed(Rows(), region, status)
      {
        if id in Owned(listed, region) {
          var s := OwnedFrom(listed, region, id);
        }
        if id in Listed(Rows(), region, status) {
          OwnedHas(listed, region, sites.sites[id]);
        }
      }
    }
  }

  /** The IDs of a list, each named once. */
  predicate Distinct(ids: seq<string>) {
    ids == [] || (Distinct(ids[..|ids| - 1]) && ids[|ids| - 1] !in ids[..|ids| - 1])
  }

  function SetOf(ids: seq<string>): set<string> {
    set id | id in ids
  }

  lemma DistinctExtend(ids: seq<string>, id: string)
    requires id !in ids
    ensures Distinct(ids + [id]) <==> Distinct(ids)
    ensures SetOf(ids + [id]) == SetOf(ids) + {id}
  {
  }

  lemma {:induction false} OwnedFrom(listed: seq<Site>, region: string, id: string) returns (s: Site)
    requires id in Owned(listed, region)
    ensures s in listed && s.id == id && (region == "" || s.region == region)
  {
    s := listed[|listed| - 1];
    if !(s.id == id && (region == "" || s.region == region)) {
      s := OwnedFrom(listed[..|listed| - 1], region, id);
    }
  }

  lemma {:induction false} OwnedHas(listed: seq<Site>, region: string, s: Site)
    requires s in listed && (region == "" || s.region == region)
    ensures s.id in Owned(listed, region)
  {
    if listed[|listed| - 1] != s {
      OwnedHas(listed[..|listed| - 1], region, s);
    }
  }

  lemma {:induction false} OwnedDistinct(listed: seq<Site>, region: string)
    requires forall i, j :: 0 <= i < j < |listed| ==> listed[i].id != listed[j].id
    ensures Distinct(Owned(listed, region))
  {
    if listed != [] {
      var n := |listed| - 1;
      var rest := Owned(listed[..n], region);
      OwnedDistinct(listed[..n], region);
      if listed[n].id in rest {
        var s := OwnedFrom(listed[..n], region, listed[n].id);
        assert false;
      }
      DistinctExtend(rest, listed[n].id);
      assert rest + [] == rest;
    }
  }

  // ---------------------------------------------------------------- what replaying claims reaches

  /** The fates the last claim of a site met. */
  function FatesOf(claims: seq<Claim>, id: string): Fates {
    if claims == [] then ALL_WELL
    else if claims[|claims| - 1].id == id then claims[|claims| - 1].fates
    else FatesOf(claims[..|claims| - 1], id)
  }

  /** The fates the claims met, as a table over all sites. */
  ghost function Table(claims: seq<Claim>): string -> Fates {
    id => FatesOf(claims, id)
  }

  /** Where two lists of claims name different sites, each site's fates are in its own list. */
  lemma {:induction false} FatesOfJoined(first: seq<Claim>, second: seq<Claim>, id: string)
    ensures FatesOf(first + second, id) == if id in Ids(second) then FatesOf(second, id) else FatesOf(first, id)
  {
    if second == [] {
      assert first + second == first;
    } else {
      var n := |second| - 1;
      FatesOfJoined(first, second[..n], id);
      assert (first + second)[..|first + second| - 1] == first + second[..n];
    }
  }

  /** Replaying claims on distinct, untouched sites of the right status brings each to its outcome. */
  lemma {:induction false} ReplayReaches(cfg: Setup, w0: World, w: World, done: set<string>, status: Status,
                                         claims: seq<Claim>, fates: string -> Fates)
    requires UniqueSlugs(w0.rows) && T.Reached(cfg, w0, w, done, fates)
    requires status.Pending? || status.Deprovisioning?
    requires Distinct(Ids(claims))
    requires forall id :: id in Ids(claims) ==> id !in done && id in w0.rows && w0.rows[id].status == status
    requires forall id :: id in Ids(claims) ==> fates(id) == FatesOf(claims, id)
    ensures T.Reached(cfg, w0, Replay(cfg, w, status, claims), done + SetOf(Ids(claims)), fates)
    decreases |claims|
  {
    if claims == [] {
      assert done + SetOf(Ids(claims)) == done;
    } else {
      var n := |claims| - 1;
      var ids := Ids(claims[..n]);
      var w', done' := Replay(cfg, w, status, claims[..n]), done + SetOf(ids);
      assert Ids(claims) == ids + [claims[n].id];
      assert claims[n].id in Ids(claims) && claims[n].id !in ids by {
        assert Ids(claims)[..|ids|] == ids;
      }
      assert T.Reached(cfg, w0, w', done', fates) by {
        DistinctExtend(ids, claims[n].id);
        ReplayReaches(cfg, w0, w, done, status, claims[..n], fates);
      }
      assert done' + {claims[n].id} == done + SetOf(Ids(claims)) by {
        DistinctExtend(ids, claims[n].id);
      }
      ReplayStep(cfg, w0, w', done', status, claims[n], fates);
    }
  }

  lemma ReplayStep(cfg: Setup, w0: World, w: World, done: set<string>, status: Status, c: Claim, fates: string -> Fates)
    requires UniqueSlugs(w0.rows) && T.Reached(cfg, w0, w, done, fates)
    requires status.Pending? || status.Deprovisioning?
    requires c.id !in done && c.id in w0.rows && w0.rows[c.id].status == status && fates(c.id) == c.fates
    ensures T.Reached(cfg, w0, SiteStep(cfg, w, status, c), done + {c.id}, fates)
  {
    T.ActsOnce(cfg, w0, w, done, fates, c.id, true);
  }

  /** The claims are on the owned sites of a status, each once, and their fates are what their calls answered. */
  ghost predicate Covers(cfg: Setup, usable: bool, rows: map<string, Row>, region: string, status: Status,
                         claims: seq<Claim>) {
    && Distinct(Ids(claims)) && SetOf(Ids(claims)) == Listed(rows, region, status)
    && AllFollow(cfg, usable, rows, status, claims)
  }

  /** What one tick does: it claims the Pending and then the Deprovisioning sites it owns, brings each to the
      outcome its calls settle, and changes nothing else. */
  ghost predicate Ticked(cfg: Setup, usable: bool, region: string, w0: World, w: World, first: seq<Claim>,
                         second: seq<Claim>) {
    && Covers(cfg, usable, w0.rows, region, Pending, first)
    && Covers(cfg, usable, w0.rows, region, Deprovisioning, second)
    && T.Reached(cfg, w0, w, T.Claimed(w0, region), Table(first + second))
  }

  /** The second listing of a tick, taken after the first half is done, still names just the sites that
      were Deprovisioning from the start. */
  lemma TickReaches(cfg: Setup, usable: bool, region: string, w0: World, w1: World, first: seq<Claim>, second: seq<Claim>)
    requires UniqueSlugs(w0.rows) && w1 == Replay(cfg, w0, Pending, first)
    requires Covers(cfg, usable, w0.rows, region, Pending, first)
    requires Covers(cfg, usable, w1.rows, region, Deprovisioning, second)
    ensures Ticked(cfg, usable, region, w0, Replay(cfg, w1, Deprovisioning, second), first, second)
  {
    var fates, pending := Table(first + second), SetOf(Ids(first));
    assert Listed(w1.rows, region, Deprovisioning) == Listed(w0.rows, region, Deprovisioning) by {
      TickHalfway(cfg, region, w0, first, Table(first));
    }
    assert pending !! SetOf(Ids(second));
    TablesJoined(first, second);
    assert T.Reached(cfg, w0, w1, pending, fates) && w1.rows.Keys == w0.rows.Keys by {
      TickHalfway(cfg, region, w0, first, fates);
    }
    assert T.Reached(cfg, w0, Replay(cfg, w1, Deprovisioning, second), T.Claimed(w0, region), fates) by {
      assert forall id :: id in Ids(second) ==> id in SetOf(Ids(second));
      ReplayReaches(cfg, w0, w1, pending, Deprovisioning, second, fates);
    }
    FollowSameSlugs(cfg, usable, w1.rows, w0.rows, Deprovisioning, second);
  }

  /** So a tick is a run of the state machine, for the fates its calls have met. */
  lemma TickedIsRun(cfg: Setup, usable: bool, region: string, w0: World, w: World, first: seq<Claim>, second: seq<Claim>)
    requires UniqueSlugs(w0.rows) && Ticked(cfg, usable, region, w0, w, first, second)
    ensures R.RunFrom(cfg, region, System(w0, Idle), R.TickEvents(Ids(first), Ids(second), Table(first + second)))
         == System(w, Idle)
  {
    var fates := Table(first + second);
    DistinctEnumerates(Ids(first));
    DistinctEnumerates(Ids(second));
    R.TickIsRun(cfg, region, w0, Ids(first), Ids(second), fates);
    var s := R.RunFrom(cfg, region, System(w0, Idle), R.TickEvents(Ids(first), Ids(second), fates));
    T.ReachedIsUnique(cfg, w0, s.world, w, T.Claimed(w0, region), fates);
  }

  lemma {:induction false} DistinctEnumerates(ids: seq<string>)
    requires Distinct(ids)
    ensures Enumerates(ids, SetOf(ids))
  {
    if ids != [] {
      var front, last := ids[..|ids| - 1], ids[|ids| - 1];
      DistinctEnumerates(front);
      assert ids == front + [last];
      assert SetOf(ids) - {last} == SetOf(front);
    }
  }

  lemma TablesJoined(first: seq<Claim>, second: seq<Claim>)
    requires SetOf(Ids(first)) !! SetOf(Ids(second))
    ensures forall id :: id in Ids(first) ==> Table(first + second)(id) == FatesOf(first, id)
    ensures forall id :: id in Ids(second) ==> Table(first + second)(id) == FatesOf(second, id)
  {
    forall id
      ensures id in Ids(first) ==> Table(first + second)(id) == FatesOf(first, id)
      ensures id in Ids(second) ==> Table(first + second)(id) == FatesOf(second, id)
    {
      FatesOfJoined(first, second, id);
      assert id in Ids(first) ==> id in SetOf(Ids(first)) && id !in SetOf(Ids(second));
    }
  }

  lemma {:induction false} FollowSameSlugs(cfg: Setup, usable: bool, rows: map<string, Row>, rows': map<string, Row>,
                                           status: Status, claims: seq<Claim>)
    requires AllFollow(cfg, usable, rows, status, claims) && rows'.Keys == rows.Keys
    requires forall id :: id in rows ==> rows'[id].slug == rows[id].slug
    ensures AllFollow(cfg, usable, rows', status, claims)
  {
    if claims != [] {
      FollowSameSlugs(cfg, usable, rows, rows', status, claims[..|claims| - 1]);
    }
  }

  /** The claim on a site, among claims that each follow their calls. */
  lemma {:induction false} ClaimOn(cfg: Setup, usable: bool, rows: map<string, Row>, status: Status, claims: seq<Claim>,
                                   id: string)
    returns (c: Claim)
    requires id in Ids(claims) && AllFollow(cfg, usable, rows, status, claims)
    ensures c in claims && c.id == id && c.fates == FatesOf(claims, id)
    ensures id in rows && Follows(cfg, usable, rows[id].slug, status, c)
    ensures AllDone(Sent(claims)) ==> AllDone(c.sent)
    ensures NoTrouble(Given(claims)) ==> NoTrouble(c.cmds)
  {
    var n := |claims| - 1;
    LogsJoin(Sent(claims[..n]), claims[n].sent);
    assert forall x :: x in Given(claims[..n]) || x in claims[n].cmds ==> x in Given(claims);
    c := claims[n];
    if c.id != id {
      c := ClaimOn(cfg, usable, rows, status, claims[..n], id);
    }
  }

  /** A site that can be given a record, where records are wanted. */
  predicate Placeable(cfg: Setup, usable: bool, slug: string) {
    cfg.NoDns? || (cfg.Usable(slug) && usable)
  }

  /** The claim of an owned site, and that the site comes to the outcome that claim settles. */
  lemma PendingOutcome(cfg: Setup, usable: bool, region: string, w0: World, w: World, first: seq<Claim>,
                       second: seq<Claim>, id: string)
    returns (c: Claim)
    requires Ticked(cfg, usable, region, w0, w, first, second) && id in Listed(w0.rows, region, Pending)
    ensures c in first && c.id == id && ProvisionFollows(cfg, usable, w0.rows[id].slug, c) && c.fates.update.Done?
    ensures AllDone(Sent(first)) ==> AllDone(c.sent)
    ensures NoTrouble(Given(first)) ==> NoTrouble(c.cmds)
    ensures ViewOf(cfg, w, id) == ProvisionView(cfg, w0.rows[id].slug, ViewOf(cfg, w0, id), c.fates)
  {
    assert id in Ids(first) && id !in Ids(second) by {
      assert id in SetOf(Ids(first)) && id !in SetOf(Ids(second));
    }
    c := ClaimOn(cfg, usable, w0.rows, Pending, first, id);
    FatesOfJoined(first, second, id);
    assert Table(first + second)(id) == c.fates && id in T.Claimed(w0, region);
  }

  lemma DoomedOutcome(cfg: Setup, usable: bool, region: string, w0: World, w: World, first: seq<Claim>,
                      second: seq<Claim>, id: string)
    returns (c: Claim)
    requires Ticked(cfg, usable, region, w0, w, first, second) && id in Listed(w0.rows, region, Deprovisioning)
    ensures c in second && c.id == id && DeprovisionFollows(cfg, usable, w0.rows[id].slug, c) && c.fates.update.Done?
    ensures AllDone(Sent(second)) ==> AllDone(c.sent)
    ensures NoTrouble(Given(second)) ==> NoTrouble(c.cmds)
    ensures ViewOf(cfg, w, id) == DeprovisionView(cfg, w0.rows[id].slug, ViewOf(cfg, w0, id), c.fates)
  {
    assert id in Ids(second) by {
      assert id in SetOf(Ids(second));
    }
    c := ClaimOn(cfg, usable, w0.rows, Deprovisioning, second, id);
    FatesOfJoined(first, second, id);
    assert Table(first + second)(id) == c.fates && id in T.Claimed(w0, region);
  }

  /** An owned Pending site ends Running, routed and resolving to the edge, exactly when its record was placed and
      the last command for it found its container running, and no earlier one did. Otherwise it ends Failed: it
      cannot be given a record or a request for it failed, and then it got no command at all, or a command for
      this very site failed. */
  lemma PendingSettled(cfg: Setup, usable: bool, region: string, w0: World, w: World, first: seq<Claim>,
                       second: seq<Claim>, id: string)
    returns (c: Claim)
    requires Ticked(cfg, usable, region, w0, w, first, second) && id in Listed(w0.rows, region, Pending)
    ensures c in first && c.id == id && ProvisionFollows(cfg, usable, w0.rows[id].slug, c)
    ensures AllDone(Sent(first)) ==> AllDone(c.sent)
    ensures NoTrouble(Given(first)) ==> NoTrouble(c.cmds)
    ensures var slug, v0, v := w0.rows[id].slug, ViewOf(cfg, w0, id), ViewOf(cfg, w, id);
            if !Placeable(cfg, usable, slug) || !AllDone(c.sent) then
              c.cmds == [] && v == View(Failed, v0.published, v0.container, v.pointer)
            else if FoundRunning(slug, c.cmds) then
              v == View(Running, true, true, if cfg.Dns? then Some(cfg.edgeIP) else None)
            else
              v == View(Failed, v0.published, v.container, if cfg.Dns? then Some(cfg.edgeIP) else None) && !NoTrouble(c.cmds)
    ensures forall i :: 0 <= i < |c.cmds| - 1 && c.cmds[i].Inspect? ==> !c.cmds[i].running
  {
    var slug := w0.rows[id].slug;
    c := PendingOutcome(cfg, usable, region, w0, w, first, second, id);
    if c.fates.dns.Done? {
      ProvisionRunMeans(slug, c.cmds, c.fates.engine.Succeeds?);
      if NoTrouble(c.cmds) {
        ProvisionedUnlessTrouble(slug, c.cmds, c.fates.engine.Succeeds?);
      }
    }
  }

  /** The last command found the container running. */
  predicate FoundRunning(slug: string, cmds: seq<Command>) {
    cmds != [] && cmds[|cmds| - 1] == Inspect(slug, true)
  }

  /** An owned Deprovisioning site is off the edge. It ends Stopped, without a container, and off the zone too
      unless a request for it failed; or it ends Failed, exactly when the host would not remove its container,
      and then nothing was sent for its record. */
  lemma DoomedSettled(cfg: Setup, usable: bool, region: string, w0: World, w: World, first: seq<Claim>,
                      second: seq<Claim>, id: string)
    returns (c: Claim)
    requires Ticked(cfg, usable, region, w0, w, first, second) && id in Listed(w0.rows, region, Deprovisioning)
    ensures c in second && c.id == id && DeprovisionFollows(cfg, usable, w0.rows[id].slug, c)
    ensures AllDone(Sent(second)) ==> AllDone(c.sent)
    ensures NoTrouble(Given(second)) ==> NoTrouble(c.cmds)
    ensures var slug, v0, v := w0.rows[id].slug, ViewOf(cfg, w0, id), ViewOf(cfg, w, id);
            if NoTrouble(c.cmds) then
              && v == View(Stopped, false, false, v.pointer)
              && (cfg.Usable(slug) && usable && AllDone(c.sent) ==> v.pointer == None)
            else c.sent == [] && v == View(Failed, false, v.container, v0.pointer)
  {
    c := DoomedOutcome(cfg, usable, region, w0, w, first, second, id);
    TornDownUnlessTrouble(w0.rows[id].slug, c.cmds, c.fates.engine.Succeeds?);
  }

  /** A tick in which no request and no command fails brings every owned Pending site up that can be given a
      record, and takes every owned Deprovisioning site down; and no tick touches any other site. */
  lemma TickConverges(cfg: Setup, usable: bool, region: string, w0: World, w: World, first: seq<Claim>,
                      second: seq<Claim>, id: string)
    requires Ticked(cfg, usable, region, w0, w, first, second) && id in w0.rows
    ensures var row, v := w0.rows[id], ViewOf(cfg, w, id);
            if (region == "" || row.region == region) && (row.status.Pending? || row.status.Deprovisioning?) then
              AllDone(Sent(first) + Sent(second)) && NoTrouble(Given(first) + Given(second)) ==>
                && (row.status.Pending? && Placeable(cfg, usable, row.slug) ==>
                      v == View(Running, true, true, if cfg.Dns? then Some(cfg.edgeIP) else None))
                && (row.status.Deprovisioning? ==> v == View(Stopped, false, false, v.pointer))
                && (row.status.Deprovisioning? && Placeable(cfg, usable, row.slug) ==> v.pointer == None)
            else w.rows[id] == row && v == ViewOf(cfg, w0, id)
  {
    LogsJoin(Sent(first), Sent(second));
    assert forall x :: x in Given(first) || x in Given(second) ==> x in Given(first) + Given(second);
    assert ViewOf(cfg, w, id).status == w.rows[id].status;
    if id in Listed(w0.rows, region, Pending) {
      var c := PendingSettled(cfg, usable, region, w0, w, first, second, id);
    } else if id in Listed(w0.rows, region, Deprovisioning) {
      var c := DoomedSettled(cfg, usable, region, w0, w, first, second, id);
    }
  }

  /** Half a tick: the Pending sites have come to their outcomes. */
  lemma TickHalfway(cfg: Setup, region: string, w0: World, first: seq<Claim>, fates: string -> Fates)
    requires UniqueSlugs(w0.rows)
    requires Distinct(Ids(first)) && SetOf(Ids(first)) == Listed(w0.rows, region, Pending)
    requires forall id :: id in Ids(first) ==> fates(id) == FatesOf(first, id)
    ensures T.Reached(cfg, w0, Replay(cfg, w0, Pending, first), SetOf(Ids(first)), fates)
    ensures Listed(Replay(cfg, w0, Pending, first).rows, region, Deprovisioning) == Listed(w0.rows, region, Deprovisioning)
  {
    var w, done := Replay(cfg, w0, Pending, first), SetOf(Ids(first));
    assert T.Reached(cfg, w0, w, done, fates) by {
      assert forall id :: id in Ids(first) ==> id in done;
      ReplayReaches(cfg, w0, w0, {}, Pending, first, fates);
      assert {} + done == done;
    }
    assert Listed(w.rows, region, Deprovisioning) == Listed(w0.rows, region, Deprovisioning) by {
      T.ListingIsCurrent(cfg, w0, w, region, Deprovisioning, done, fates, true);
    }
  }

  function SiteStep(cfg: Setup, w: World, status: Status, c: Claim): World {
    if c.id !in w.rows then w
    else if status.Pending? then ProvisionStep(cfg, w, c.id, c.fates)
    else DeprovisionStep(cfg, w, c.id, c.fates)
  }

  /** The same step on one site after another. */
  function Replay(cfg: Setup, w: World, status: Status, claims: seq<Claim>): World {
    if claims == [] then w
    else SiteStep(cfg, Replay(cfg, w, status, claims[..|claims| - 1]), status, claims[|claims| - 1])
  }

  lemma ReplayExtend(cfg: Setup, w: World, status: Status, claims: seq<Claim>, c: Claim)
    ensures Replay(cfg, w, status, claims + [c]) == SiteStep(cfg, Replay(cfg, w, status, claims), status, c)
    ensures Ids(claims + [c]) == Ids(claims) + [c.id]
  {
  }

  function Ids(claims: seq<Claim>): seq<string> {
    if claims == [] then [] else Ids(claims[..|claims| - 1]) + [claims[|claims| - 1].id]
  }

  /** The requests for DNS and the commands for Docker that the claims took, in order. */
  function Sent(claims: seq<Claim>): seq<Request> {
    if claims == [] then [] else Sent(claims[..|claims| - 1]) + claims[|claims| - 1].sent
  }

  function Given(claims: seq<Claim>): seq<Command> {
    if claims == [] then [] else Given(claims[..|claims| - 1]) + claims[|claims| - 1].cmds
  }

  predicate AllFollow(cfg: Setup, usable: bool, rows: map<string, Row>, status: Status, claims: seq<Claim>) {
    claims == [] ||
    var c := claims[|claims| - 1];
    AllFollow(cfg, usable, rows, status, claims[..|claims| - 1])
    && c.id in rows && Follows(cfg, usable, rows[c.id].slug, status, c)
  }

  lemma ClaimsExtend(cfg: Setup, usable: bool, rows: map<string, Row>, status: Status, claims: seq<Claim>, c: Claim,
                     sent0: seq<Request>, given0: seq<Command>)
    ensures AllFollow(cfg, usable, rows, status, claims + [c])
       <==> AllFollow(cfg, usable, rows, status, claims) && c.id in rows && Follows(cfg, usable, rows[c.id].slug, status, c)
    ensures sent0 + Sent(claims + [c]) == (sent0 + Sent(claims)) + c.sent
    ensures given0 + Given(claims + [c]) == (given0 + Given(claims)) + c.cmds
    ensures Ids(claims + [c]) == Ids(claims) + [c.id]
  {
    assert (claims + [c])[..|claims|] == claims;
    Grouping(sent0, Sent(claims), c.sent);
    Grouping(given0, Given(claims), c.cmds);
  }

  /** The IDs of the listed sites a region owns. */
  function Owned(listed: seq<Site>, region: string): seq<string> {
    if listed == [] then []
    else
      var s := listed[|listed| - 1];
      Owned(listed[..|listed| - 1], region) + if region == "" || s.region == region then [s.id] else []
  }

  lemma OwnedExtend(listed: seq<Site>, region: string, i: nat)
    requires i < |listed|
    ensures Owned(listed[..i + 1], region)
         == Owned(listed[..i], region) + if region == "" || listed[i].region == region then [listed[i].id] else []
  {
    assert listed[..i + 1][..i] == listed[..i];
  }

  lemma DriftRepaired(m: D.Manager, slugs: seq<string>, region: string, events: seq<Event>, z: Pointers)
    requires AgreeOnSites(Dns(m.baseDomain, m.edgeIP), Run(Dns(m.baseDomain, m.edgeIP), region, events).world, z)
    requires (set s | s in slugs) == KeptSlugs(Run(Dns(m.baseDomain, m.edgeIP), region, events).world.rows)
    ensures var cfg := Dns(m.baseDomain, m.edgeIP);
            var rows := Run(cfg, region, events).world.rows;
            forall id :: id in rows ==>
              PointerOf(cfg, Target(z, m.Names(slugs), m.edgeIP), rows[id].slug)
                == if rows[id].status.Stopped? then None else Some(m.edgeIP)
  {
    var cfg := Dns(m.baseDomain, m.edgeIP);
    var rows := Run(cfg, region, events).world.rows;
    forall s
      ensures TenantHost(s, cfg.base) in m.Names(slugs) <==> s in KeptSlugs(rows)
    {
      if TenantHost(s, cfg.base) in m.Names(slugs) {
        var s' :| s' in slugs && TenantHost(s', cfg.base) == TenantHost(s, cfg.base);
        HostInjective(s', s, cfg.base);
      }
      assert s in slugs <==> s in set x | x in slugs;
    }
    forall id | id in rows {
      ReconcileRepairs(cfg, region, events, z, m.Names(slugs), id);
    }
  }

  /** Reconciling with the slugs of the sites that are not Stopped, in a state the life cycle can reach: it
      fails only with a request it sent, and otherwise clears the names that failed removals have left and
      brings the others back. */
  method RepairDrift(m: D.Manager, slugs: seq<string>, ghost region: string, ghost events: seq<Event>)
    returns (ok: bool, ghost sent: seq<Request>)
    requires m.Valid() && m.Configured() && m.provider.Usable()
    requires AgreeOnSites(Dns(m.baseDomain, m.edgeIP), Run(Dns(m.baseDomain, m.edgeIP), region, events).world, m.zone)
    requires (set s | s in slugs) == KeptSlugs(Run(Dns(m.baseDomain, m.edgeIP), region, events).world.rows)
    modifies m`zone, m`log, m.provider.Store()
    ensures m.Valid() && m.log == old(m.log) + sent && ok == AllDone(sent)
    ensures var cfg := Dns(m.baseDomain, m.edgeIP);
            var rows := Run(cfg, region, events).world.rows;
            ok ==> forall id :: id in rows ==>
              PointerOf(cfg, m.zone, rows[id].slug) == if rows[id].status.Stopped? then None else Some(m.edgeIP)
  {
    ghost var z := m.zone;
    ghost var deleted, upserted;
    ok, sent, deleted, upserted := m.Reconcile(slugs);
    if ok {
      DriftRepaired(m, slugs, region, events, z);
    }
  }
}
