/** Site objects, the in-process repository that shares them, the edge port map, and the Docker host. */
module Sites {
  import opened Lifecycle
  import Requests

  class Site {
    const id: string
    const slug: string
    const region: string
    var status: Status
    var lastError: string

    constructor (id: string, slug: string, region: string)
      ensures this.id == id && this.slug == slug && this.region == region
      ensures status == Unset && lastError == ""
    {
      this.id, this.slug, this.region := id, slug, region;
      status, lastError := Unset, "";
    }
  }

  /** The repository hands out the very objects it holds. */
  class MemorySiteRepo {
    var sites: map<string, Site>

    ghost predicate Valid()
      reads this
    {
      forall id :: id in sites ==> sites[id].id == id
    }

    constructor ()
      ensures Valid() && sites == map[]
    {
      sites := map[];
    }

    method Insert(site: Site)
      requires Valid()
      modifies this, site
      ensures Valid() && sites == old(sites)[site.id := site]
      ensures site.status == if old(site.status).Unset? then Status.Pending else old(site.status)
      ensures site.lastError == old(site.lastError)
    {
      if site.status == Unset {
        site.status := Status.Pending;
      }
      sites := sites[site.id := site];
    }

    /** Every site with the status, each once, in any order. */
    method ByStatus(status: Status) returns (out: seq<Site>)
      requires Valid()
      ensures forall s :: s in out <==> s.id in sites && sites[s.id] == s && s.status == status
      ensures forall i, j :: 0 <= i < j < |out| ==> out[i].id != out[j].id
    {
      out := [];
      var todo := sites.Keys;
      while todo != {}
        invariant todo <= sites.Keys
        invariant forall s :: s in out <==> s.id in sites.Keys - todo && sites[s.id] == s && s.status == status
        invariant forall i, j :: 0 <= i < j < |out| ==> out[i].id != out[j].id
      {
        var id :| id in todo;
        todo := todo - {id};
        if sites[id].status == status {
          out := out + [sites[id]];
        }
      }
    }

    method Pending() returns (out: seq<Site>)
      requires Valid()
      ensures forall s :: s in out <==> s.id in sites && sites[s.id] == s && s.status.Pending?
      ensures forall i, j :: 0 <= i < j < |out| ==> out[i].id != out[j].id
    {
      out := ByStatus(Status.Pending);
    }

    method Deprovisioning() returns (out: seq<Site>)
      requires Valid()
      ensures forall s :: s in out <==> s.id in sites && sites[s.id] == s && s.status.Deprovisioning?
      ensures forall i, j :: 0 <= i < j < |out| ==> out[i].id != out[j].id
    {
      out := ByStatus(Status.Deprovisioning);
    }

    /** No implicit insert. */
    method Update(site: Site) returns (ok: bool)
      requires Valid()
      modifies this
      ensures Valid() && ok == (site.id in old(sites))
      ensures sites == if ok then old(sites)[site.id := site] else old(sites)
    {
      ok := site.id in sites;
      if ok {
        sites := sites[site.id := site];
      }
    }
  }

  class MemoryPortMap {
    var ports: map<string, int>

    constructor ()
      ensures ports == map[]
    {
      ports := map[];
    }

    /** Port 0 unregisters the slug. */
    method Set(slug: string, port: int)
      modifies this
      ensures ports == if port == 0 then old(ports) - {slug} else old(ports)[slug := port]
      ensures ports.Keys == if port == 0 then old(ports.Keys) - {slug} else old(ports.Keys) + {slug}
    {
      if port == 0 {
        ports := ports - {slug};
      } else {
        ports := ports[slug := port];
      }
    }

    method Lookup(slug: string) returns (port: int, ok: bool)
      ensures ok == (slug in ports) && (ok ==> port == ports[slug])
    {
      ok := slug in ports;
      port := if ok then ports[slug] else 0;
    }
  }

  // ---------------------------------------------------------------- Docker

  /** What Docker calls the container of a slug. */
  function ContainerName(slug: string): string {
    "loom-" + slug
  }

  /** Docker tells containers apart by name, so slugs do not share one. */
  lemma ContainerNameInjective(slug1: string, slug2: string)
    requires ContainerName(slug1) == ContainerName(slug2)
    ensures slug1 == slug2
  {
    assert slug1 == ContainerName(slug1)[5..] && slug2 == ContainerName(slug2)[5..];
  }

  /** A command for the host, or a wait for it, and what came of it. */
  datatype Command =
    | Pull(ok: bool)
    | Remove(slug: string, answer: Removal)
    | Start(slug: string, ok: bool)
    | Wait(end: Waited)
    | Inspect(slug: string, running: bool)

  /** A removal can fail because there is nothing to remove, or for any other reason. */
  datatype Removal = Removed | NoSuch | NotRemoved

  /** Between two health checks the interval passes, the deadline does, or the call is cancelled. */
  datatype Waited = Interval | Deadline | Cancelled

  /** The commands one provisioning gives, up to the one that settles whether it is `ok`. */
  predicate ProvisionRun(slug: string, cmds: seq<Command>, ok: bool) {
    || (cmds == [Pull(false)] && !ok)
    || (|cmds| >= 3 && cmds[0] == Pull(true) && cmds[1].Remove? && cmds[1].slug == slug
        && (if cmds[2] == Start(slug, true) then HealthRun(slug, cmds[3..], ok) else cmds[2..] == [Start(slug, false)] && !ok))
  }

  /** Waits and checks, until a check finds the container running or there is no time left. */
  predicate HealthRun(slug: string, cmds: seq<Command>, ok: bool) {
    || (cmds == [Wait(Deadline)] && !ok)
    || (cmds == [Wait(Cancelled)] && !ok)
    || (cmds == [Wait(Interval), Inspect(slug, true)] && ok)
    || (|cmds| >= 2 && cmds[..2] == [Wait(Interval), Inspect(slug, false)] && HealthRun(slug, cmds[2..], ok))
  }

  /** The one command a teardown gives. */
  predicate TeardownRun(slug: string, cmds: seq<Command>, ok: bool) {
    |cmds| == 1 && cmds[0].Remove? && cmds[0].slug == slug && ok == !cmds[0].answer.NotRemoved?
  }

  /** Waits and checks take turns; every wait but a last one is over before the deadline, and every check but a
      last one finds nothing running. */
  predicate TakeTurns(slug: string, cmds: seq<Command>) {
    forall i :: 0 <= i < |cmds| ==>
      if i % 2 == 0 then cmds[i].Wait? && (cmds[i].end.Interval? <==> i < |cmds| - 1)
      else cmds[i] == Inspect(slug, i == |cmds| - 1)
  }

  /** A health check is just that, and it succeeds exactly when its last command found the container running. */
  lemma {:induction false} HealthRunMeans(slug: string, cmds: seq<Command>, ok: bool)
    ensures HealthRun(slug, cmds, ok)
       <==> cmds != [] && TakeTurns(slug, cmds) && (ok <==> cmds[|cmds| - 1] == Inspect(slug, true))
    decreases |cmds|
  {
    if |cmds| > 2 && cmds[..2] == [Wait(Interval), Inspect(slug, false)] {
      var rest := cmds[2..];
      HealthRunMeans(slug, rest, ok);
      assert cmds[0] == cmds[..2][0] && cmds[1] == cmds[..2][1];
      assert forall i :: 0 <= i < |rest| ==> rest[i] == cmds[i + 2] && i % 2 == (i + 2) % 2;
      assert forall i :: 2 <= i < |cmds| ==> cmds[i] == rest[i - 2] && i % 2 == (i - 2) % 2;
    } else {
      HealthRunEnds(slug, cmds, ok);
    }
  }

  lemma HealthRunEnds(slug: string, cmds: seq<Command>, ok: bool)
    requires !(|cmds| > 2 && cmds[..2] == [Wait(Interval), Inspect(slug, false)])
    ensures HealthRun(slug, cmds, ok)
       <==> cmds != [] && TakeTurns(slug, cmds) && (ok <==> cmds[|cmds| - 1] == Inspect(slug, true))
  {
    if |cmds| == 1 {
      assert cmds == [cmds[0]];
    } else if |cmds| == 2 {
      assert cmds == [cmds[0], cmds[1]] && cmds[2..] == [];
    } else if |cmds| > 2 {
      assert cmds[..2] == [cmds[0], cmds[1]];
    }
  }

  /** A provisioning succeeds exactly when its last command found the container running, and none did before;
      then the image was pulled, what was there was removed, and the container was started, in this order. */
  lemma ProvisionRunMeans(slug: string, cmds: seq<Command>, ok: bool)
    requires ProvisionRun(slug, cmds, ok)
    ensures cmds != [] && cmds[0].Pull? && (ok <==> cmds[|cmds| - 1] == Inspect(slug, true))
    ensures forall i :: 0 <= i < |cmds| - 1 && cmds[i].Inspect? ==> !cmds[i].running
    ensures if cmds[0].ok then |cmds| > 2 && cmds[1].Remove? && cmds[1].slug == slug && cmds[2].Start? && cmds[2].slug == slug
            else |cmds| == 1
    ensures |cmds| > 3 ==> cmds[2].ok
  {
    if |cmds| > 2 {
      var health := cmds[3..];
      assert cmds[2..][0] == cmds[2];
      if cmds[2] == Start(slug, true) {
        HealthRunMeans(slug, health, ok);
        assert cmds[|cmds| - 1] == health[|health| - 1];
        assert forall i :: 3 <= i < |cmds| ==> cmds[i] == health[i - 3];
      }
    }
  }

  /** The host refused, or time ran out. */
  predicate Trouble(c: Command) {
    match c
    case Pull(ok) => !ok
    case Remove(_, answer) => answer.NotRemoved?
    case Start(_, ok) => !ok
    case Wait(end) => !end.Interval?
    case Inspect(_, _) => false
  }

  predicate NoTrouble(cmds: seq<Command>) {
    forall c :: c in cmds ==> !Trouble(c)
  }

  /** A health check that goes on to a settled end is one in all. */
  lemma {:induction false} HealthGoesOn(slug: string, n: nat, last: seq<Command>, ok: bool)
    requires HealthRun(slug, last, ok)
    ensures HealthRun(slug, Checks(slug, n) + last, ok)
  {
    if n == 0 {
      assert Checks(slug, n) + last == last;
    } else {
      HealthGoesOn(slug, n - 1, last, ok);
      OneTurnMore(slug, Checks(slug, n - 1) + last, ok);
      Requests.Grouping([Wait(Interval), Inspect(slug, false)], Checks(slug, n - 1), last);
    }
  }

  lemma OneTurnMore(slug: string, rest: seq<Command>, ok: bool)
    requires HealthRun(slug, rest, ok)
    ensures HealthRun(slug, [Wait(Interval), Inspect(slug, false)] + rest, ok)
  {
    var all := [Wait(Interval), Inspect(slug, false)] + rest;
    assert all[..2] == [Wait(Interval), Inspect(slug, false)] && all[2..] == rest;
  }

  /** So many checks that find nothing running yet. */
  function Checks(slug: string, n: nat): seq<Command> {
    if n == 0 then [] else [Wait(Interval), Inspect(slug, false)] + Checks(slug, n - 1)
  }

  lemma {:induction false} OneMoreCheck(slug: string, n: nat)
    ensures Checks(slug, n) + [Wait(Interval), Inspect(slug, false)] == Checks(slug, n + 1)
  {
    if n > 0 {
      OneMoreCheck(slug, n - 1);
    }
  }

  /** A provisioning fails only with a command that failed or with the deadline. */
  lemma {:induction false} HealthyUnlessTrouble(slug: string, cmds: seq<Command>, ok: bool)
    requires HealthRun(slug, cmds, ok)
    ensures ok <==> NoTrouble(cmds)
    decreases |cmds|
  {
    if |cmds| >= 2 && cmds[..2] == [Wait(Interval), Inspect(slug, false)] && HealthRun(slug, cmds[2..], ok) {
      HealthyUnlessTrouble(slug, cmds[2..], ok);
      assert cmds == [Wait(Interval), Inspect(slug, false)] + cmds[2..];
    } else {
      assert cmds[0] in cmds;
    }
  }

  lemma TornDownUnlessTrouble(slug: string, cmds: seq<Command>, ok: bool)
    requires TeardownRun(slug, cmds, ok)
    ensures ok <==> NoTrouble(cmds)
  {
    assert cmds[0] in cmds;
    assert forall c :: c in cmds ==> c == cmds[0];
  }

  lemma ProvisionedUnlessTrouble(slug: string, cmds: seq<Command>, ok: bool)
    requires ProvisionRun(slug, cmds, ok) && NoTrouble(cmds)
    ensures ok
  {
    assert !Trouble(cmds[0]) by {
      assert cmds[0] in cmds;
    }
    assert !Trouble(cmds[2]) by {
      assert cmds[2] in cmds;
    }
    assert cmds[2] == cmds[2..][0];
    assert forall c :: c in cmds[3..] ==> c in cmds;
    HealthyUnlessTrouble(slug, cmds[3..], ok);
  }

  /** The Docker host. A container is listed by the slug it is named after. Commands may fail, and a failed
      one may have had its effect or not. */
  class DockerHost {
    var containers: set<string>
    /** The commands given, with their answers. */
    ghost var log: seq<Command>
    /** Health checks that still fit before the deadline of the current one. */
    var patience: nat

    constructor ()
      ensures containers == {} && log == []
    {
      containers, log, patience := {}, [], 0;
    }

    method Pull() returns (ok: bool)
      modifies `log
      ensures log == old(log) + [Command.Pull(ok)]
    {
      ok := *;
      log := log + [Command.Pull(ok)];
    }

    method Remove(slug: string) returns (answer: Removal)
      modifies `log, `containers
      ensures log == old(log) + [Command.Remove(slug, answer)]
      ensures answer.NotRemoved? || containers == old(containers) - {slug}
      ensures containers == old(containers) || containers == old(containers) - {slug}
    {
      var ok, applied := *, *;
      answer := if ok then if slug in containers then Removed else NoSuch else NotRemoved;
      log := log + [Command.Remove(slug, answer)];
      if ok || applied {
        containers := containers - {slug};
      }
    }

    method Start(slug: string) returns (ok: bool)
      modifies this
      ensures log == old(log) + [Command.Start(slug, ok)]
      ensures ok ==> containers == old(containers) + {slug}
      ensures containers == old(containers) || containers == old(containers) + {slug}
    {
      ok := *;
      var applied := *;
      log := log + [Command.Start(slug, ok)];
      if ok || applied {
        containers := containers + {slug};
      }
      patience := *;
    }

    /** Until the next health check is due. */
    method Wait() returns (end: Waited)
      modifies `log, `patience
      ensures log == old(log) + [Command.Wait(end)]
      ensures end.Interval? ==> patience < old(patience)
    {
      var cancelled := *;
      end := if patience == 0 then Deadline else if cancelled then Cancelled else Interval;
      if end.Interval? {
        patience := patience - 1;
      }
      log := log + [Command.Wait(end)];
    }

    method Inspect(slug: string) returns (running: bool)
      modifies `log
      ensures log == old(log) + [Command.Inspect(slug, running)]
      ensures running ==> slug in containers
    {
      running := *;
      running := running && slug in containers;
      log := log + [Command.Inspect(slug, running)];
    }
  }

  /** The text of a command's output is not modelled. */
  const OUTPUT := "..."

  class DockerProvisioner {
    const host: DockerHost

    constructor (host: DockerHost)
      ensures this.host == host
    {
      this.host := host;
    }

    /** Running and a container, or Failed and a reason, as the commands it gave settle it; no other container
        is touched. */
    method Provision(site: Site) returns (ok: bool, ghost cmds: seq<Command>)
      modifies site, host
      ensures host.log == old(host.log) + cmds && ProvisionRun(site.slug, cmds, ok)
      ensures ok <==> cmds != [] && cmds[|cmds| - 1] == Inspect(site.slug, true)
      ensures forall i :: 0 <= i < |cmds| - 1 && cmds[i].Inspect? ==> !cmds[i].running
      ensures ok ==> site.status == Running && site.lastError == ""
      ensures !ok ==> site.status == Failed && site.lastError != ""
      ensures host.containers == With(old(host.containers), site.slug, ok || site.slug in host.containers)
    {
      ghost var before := host.log;
      site.status, site.lastError := Status.Provisioning, "";
      ok := host.Pull();
      cmds := [Pull(ok)];
      if !ok {
        site.status, site.lastError := Failed, "pull: " + OUTPUT;
        return;
      }
      var slug := site.slug;
      // Whatever container of that name there is.
      var answer := host.Remove(slug);
      ok := host.Start(slug);
      cmds := [Pull(true), Remove(slug, answer), Start(slug, ok)];
      assert host.log == before + cmds;
      if !ok {
        site.status, site.lastError := Failed, "run: " + OUTPUT;
        return;
      }
      ghost var checks;
      ok, checks := AwaitHealth(site);
      Requests.Grouping(before, cmds, checks);
      cmds := cmds + checks;
      ProvisionRunMeans(slug, cmds, ok);
    }

    method AwaitHealth(site: Site) returns (ok: bool, ghost cmds: seq<Command>)
      requires site.slug in host.containers
      modifies site, host`log, host`patience
      ensures host.log == old(host.log) + cmds && HealthRun(site.slug, cmds, ok)
      ensures ok <==> cmds != [] && cmds[|cmds| - 1] == Inspect(site.slug, true)
      ensures ok ==> site.status == Running && site.lastError == old(site.lastError)
      ensures !ok ==> site.status == Failed && site.lastError != ""
    {
      ghost var before, n: nat := host.log, 0;
      while true
        invariant host.log == before + Checks(site.slug, n)
        invariant site.lastError == old(site.lastError)
        decreases host.patience
      {
        var end := host.Wait();
        if !end.Interval? {
          cmds := Checks(site.slug, n) + [Wait(end)];
          HealthGoesOn(site.slug, n, [Wait(end)], false);
          Requests.Grouping(before, Checks(site.slug, n), [Wait(end)]);
          site.status := Failed;
          site.lastError := if end.Cancelled? then "context cancelled during health check" else "health check timed out";
          HealthRunMeans(site.slug, cmds, false);
          return false, cmds;
        }
        var running := host.Inspect(site.slug);
        ghost var check := [Wait(Interval), Inspect(site.slug, running)];
        assert host.log == (before + Checks(site.slug, n)) + check;
        Requests.Grouping(before, Checks(site.slug, n), check);
        if running {
          cmds := Checks(site.slug, n) + check;
          HealthGoesOn(site.slug, n, check, true);
          HealthRunMeans(site.slug, cmds, true);
          site.status := Running;
          return true, cmds;
        }
        OneMoreCheck(site.slug, n);
        n := n + 1;
      }
    }

    /** Stopped and no container, or Failed and a reason. A container that is already gone is fine. */
    method Deprovision(site: Site) returns (ok: bool, ghost cmds: seq<Command>)
      modifies site, host
      ensures host.log == old(host.log) + cmds && TeardownRun(site.slug, cmds, ok)
      ensures ok ==> site.status == Stopped && site.lastError == old(site.lastError)
      ensures !ok ==> site.status == Failed && site.lastError != ""
      ensures host.containers == With(old(host.containers), site.slug,
                                      !ok && site.slug in host.containers && site.slug in old(host.containers))
    {
      site.status := Status.Deprovisioning;
      var answer := host.Remove(site.slug);
      cmds := [Remove(site.slug, answer)];
      if answer.NotRemoved? {
        site.status, site.lastError := Failed, "rm: " + OUTPUT;
        return false, cmds;
      }
      site.status := Stopped;
      ok := true;
    }
  }
}
