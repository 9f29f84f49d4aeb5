/** What a billing run promises, whichever calls fail: about its log, for all sites, events and tables. */
module BillingLaws {
  import opened Calendar
  import opened Usage
  import opened Invoicing
  import opened Billing

  // ---------------------------------------------------------------- one tenant: lines, then the closing

  lemma {:induction false} LinesAreDue(job: Job, site: SiteBillingInfo, order: seq<string>, a: Attempt)
    returns (kind: string)
    requires a in job.LineLog(site, order)
    ensures kind in order && job.Due(site, kind)
    ensures a == Attempt(Line(job.ItemOf(site, kind)), !job.refuses(Line(job.ItemOf(site, kind))))
  {
    var n := |order| - 1;
    if a in job.LineLog(site, order[..n]) {
      kind := LinesAreDue(job, site, order[..n], a);
    } else {
      kind := order[n];
    }
  }

  lemma {:induction false} StoppedMeans(job: Job, site: SiteBillingInfo, order: seq<string>)
    ensures job.Stopped(site, order)
       <==> exists kind :: kind in order && job.Due(site, kind) && job.refuses(Line(job.ItemOf(site, kind)))
  {
    if order != [] {
      var n := |order| - 1;
      StoppedMeans(job, site, order[..n]);
      assert order == order[..n] + [order[n]];
    }
  }

  /** No line is asked for twice, and unless one is refused each kind that is due has its line. */
  lemma {:induction false} EachLineOnce(job: Job, site: SiteBillingInfo, order: seq<string>, kind: string)
    requires forall i, j :: 0 <= i < j < |order| ==> order[i] != order[j]
    ensures var times := multiset(job.LineLog(site, order))[LineAttempt(job, site, kind)];
            && times <= (if kind in order && job.Due(site, kind) then 1 else 0)
            && (!job.Stopped(site, order) ==> times == if kind in order && job.Due(site, kind) then 1 else 0)
  {
    if order != [] {
      var n := |order| - 1;
      EachLineOnce(job, site, order[..n], kind);
      assert kind in order <==> kind in order[..n] || kind == order[n];
      OneMoreLine(job, site, order[..n], order[n], kind);
    }
  }

  lemma OneMoreLine(job: Job, site: SiteBillingInfo, order: seq<string>, last: string, kind: string)
    ensures var lines, a := job.LineLog(site, order), LineAttempt(job, site, kind);
            multiset(lines + if job.Stopped(site, order) || !job.Due(site, last) then [] else [LineAttempt(job, site, last)])[a]
              == multiset(lines)[a] + if !job.Stopped(site, order) && job.Due(site, last) && last == kind then 1 else 0
  {
    var lines := job.LineLog(site, order);
    assert lines + [] == lines;
    assert job.ItemOf(site, last).kind == last && job.ItemOf(site, kind).kind == kind;
  }

  function LineAttempt(job: Job, site: SiteBillingInfo, kind: string): Attempt {
    Attempt(Line(job.ItemOf(site, kind)), !job.refuses(Line(job.ItemOf(site, kind))))
  }

  function CloseAttempt(job: Job, tenantID: string): Attempt {
    Attempt(Close(tenantID, job.period), !job.refuses(Close(tenantID, job.period)))
  }

  predicate Closing(log: seq<Attempt>) {
    exists i :: 0 <= i < |log| && log[i].call.Close?
  }

  /** The invoice is closed, or at least asked to be, exactly when the tenant's usage could be read and no line
      that was due was refused. */
  lemma ClosedUnlessRefused(job: Job, site: SiteBillingInfo, order: seq<string>)
    requires job.Ordered(site, order)
    ensures Closing(job.TenantLog(site, order))
       <==> && !job.unreadable(site.tenantID)
            && !exists kind :: && kind in job.Kinds(site.tenantID) && job.Due(site, kind)
                               && job.refuses(Line(job.ItemOf(site, kind)))
  {
    var log, lines := job.TenantLog(site, order), job.LineLog(site, order);
    forall a | a in lines
      ensures a.call.Line?
    {
      var kind := LinesAreDue(job, site, order, a);
    }
    if !job.unreadable(site.tenantID) {
      StoppedMeans(job, site, order);
      if job.Stopped(site, order) {
        assert log == lines;
      } else {
        assert log[|lines|].call.Close?;
      }
    }
  }

  /** Every line is for what the tenant used of a kind in the period, less what its plan includes, at its plan's
      price; and that is more than nothing. */
  lemma LinesBillTheUsage(job: Job, site: SiteBillingInfo, order: seq<string>, a: Attempt)
    requires a in job.TenantLog(site, order) && a.call.Line?
    ensures var kind := a.call.item.kind;
            var over := Used(job.events, site.tenantID, kind, job.period) - Lookup(job.included, site.plan, kind);
            && a.call.item == InvoiceItem(site.tenantID, kind, over, Lookup(job.prices, site.plan, kind), job.period)
            && over > 0.0 && Lookup(job.prices, site.plan, kind) != 0.0 && kind in order
  {
    var kind := LinesAreDue(job, site, order, a);
  }

  /** Closing is the last call, after one accepted line for each kind the tenant used more of than its plan
      includes, if it is priced, and none for any other. */
  lemma ClosingFollowsEveryLine(job: Job, site: SiteBillingInfo, order: seq<string>, item: InvoiceItem)
    requires job.Ordered(site, order) && Closing(job.TenantLog(site, order))
    requires item.quantity == Used(job.events, site.tenantID, item.kind, job.period) - Lookup(job.included, site.plan, item.kind)
    requires item.unitPriceUSD == Lookup(job.prices, site.plan, item.kind)
    requires item.tenantID == site.tenantID && item.period == job.period
    ensures var log := job.TenantLog(site, order);
            && log != [] && log[|log| - 1] == CloseAttempt(job, site.tenantID)
            && (forall a :: a in log[..|log| - 1] ==> a.call.Line? && a.accepted)
            && multiset(log)[Attempt(Line(item), true)]
               == (if item.kind in job.Kinds(site.tenantID) && item.quantity > 0.0 && item.unitPriceUSD != 0.0 then 1 else 0)
  {
    ClosesLast(job, site, order);
    assert item == job.ItemOf(site, item.kind);
    AcceptedOnce(job, site, order, item.kind);
    CountedBefore(job.LineLog(site, order), CloseAttempt(job, site.tenantID), Attempt(Line(item), true));
  }

  lemma CountedBefore(lines: seq<Attempt>, close: Attempt, line: Attempt)
    requires close != line
    ensures multiset(lines + [close])[line] == multiset(lines)[line]
  {
  }

  lemma ClosesLast(job: Job, site: SiteBillingInfo, order: seq<string>)
    requires job.Ordered(site, order) && Closing(job.TenantLog(site, order))
    ensures !job.unreadable(site.tenantID) && !job.Stopped(site, order)
    ensures var log := job.TenantLog(site, order);
            && log == job.LineLog(site, order) + [CloseAttempt(job, site.tenantID)]
            && forall a :: a in log[..|log| - 1] ==> a.call.Line? && a.accepted
  {
    var log, lines := job.TenantLog(site, order), job.LineLog(site, order);
    ClosedUnlessRefused(job, site, order);
    StoppedMeans(job, site, order);
    assert log == lines + [CloseAttempt(job, site.tenantID)] && log[..|log| - 1] == lines;
    forall a | a in lines
      ensures a.call.Line? && a.accepted
    {
      var k := LinesAreDue(job, site, order, a);
    }
  }

  lemma AcceptedOnce(job: Job, site: SiteBillingInfo, order: seq<string>, kind: string)
    requires Enumerates(order, job.Kinds(site.tenantID)) && !job.Stopped(site, order)
    ensures multiset(job.LineLog(site, order))[Attempt(Line(job.ItemOf(site, kind)), true)]
         == if kind in job.Kinds(site.tenantID) && job.Due(site, kind) then 1 else 0
  {
    EachLineOnce(job, site, order, kind);
    StoppedMeans(job, site, order);
    var a := Attempt(Line(job.ItemOf(site, kind)), true);
    if a in job.LineLog(site, order) {
      var other := LinesAreDue(job, site, order, a);
      assert job.ItemOf(site, other).kind == job.ItemOf(site, kind).kind;
    }
  }

  // ---------------------------------------------------------------- many tenants

  /** The calls made for one tenant. */
  function Project(log: seq<Attempt>, tenantID: string): seq<Attempt> {
    if log == [] then []
    else
      var a := log[|log| - 1];
      Project(log[..|log| - 1], tenantID) + if TenantOf(a.call) == tenantID then [a] else []
  }

  lemma {:induction false} ProjectJoin(log: seq<Attempt>, more: seq<Attempt>, tenantID: string)
    ensures Project(log + more, tenantID) == Project(log, tenantID) + Project(more, tenantID)
  {
    if more == [] {
      assert log + more == log;
    } else {
      ProjectJoin(log, more[..|more| - 1], tenantID);
      assert (log + more)[..|log + more| - 1] == log + more[..|more| - 1];
    }
  }

  lemma {:induction false} ProjectAll(log: seq<Attempt>, tenantID: string, mine: bool)
    requires forall a :: a in log ==> (TenantOf(a.call) == tenantID) == mine
    ensures Project(log, tenantID) == if mine then log else []
  {
    if log != [] {
      ProjectAll(log[..|log| - 1], tenantID, mine);
      assert log == log[..|log| - 1] + [log[|log| - 1]];
    }
  }

  /** The calls for a site are all for its tenant. */
  lemma ProjectTenantLog(job: Job, site: SiteBillingInfo, order: seq<string>, tenantID: string)
    ensures Project(job.TenantLog(site, order), tenantID)
         == if site.tenantID == tenantID then job.TenantLog(site, order) else []
  {
    var log := job.TenantLog(site, order);
    forall a | a in log
      ensures TenantOf(a.call) == site.tenantID
    {
      if a in job.LineLog(site, order) {
        var kind := LinesAreDue(job, site, order, a);
      }
    }
    ProjectAll(log, tenantID, site.tenantID == tenantID);
  }

  /** The run over a tenant's sites alone. */
  function Alone(job: Job, sites: seq<SiteBillingInfo>, orders: seq<seq<string>>, tenantID: string): seq<Attempt>
    requires |orders| == |sites|
  {
    if sites == [] then []
    else
      var n := |sites| - 1;
      Alone(job, sites[..n], orders[..n], tenantID)
      + if sites[n].tenantID == tenantID then job.TenantLog(sites[n], orders[n]) else []
  }

  lemma {:induction false} ProjectRun(job: Job, sites: seq<SiteBillingInfo>, orders: seq<seq<string>>, tenantID: string)
    requires |orders| == |sites|
    ensures Project(job.RunLog(sites, orders), tenantID) == Alone(job, sites, orders, tenantID)
  {
    if sites != [] {
      var n := |sites| - 1;
      ProjectRun(job, sites[..n], orders[..n], tenantID);
      ProjectTenantLog(job, sites[n], orders[n], tenantID);
      ProjectJoin(job.RunLog(sites[..n], orders[..n]), job.TenantLog(sites[n], orders[n]), tenantID);
    }
  }

  /** The sites are gone through in order. */
  lemma {:induction false} RunsInTurn(job: Job, sites: seq<SiteBillingInfo>, orders: seq<seq<string>>,
                                      more: seq<SiteBillingInfo>, moreOrders: seq<seq<string>>)
    requires |orders| == |sites| && |moreOrders| == |more|
    ensures job.RunLog(sites + more, orders + moreOrders) == job.RunLog(sites, orders) + job.RunLog(more, moreOrders)
  {
    if more == [] {
      assert sites + more == sites && orders + moreOrders == orders;
    } else {
      var n := |more| - 1;
      RunsInTurn(job, sites, orders, more[..n], moreOrders[..n]);
      RunsInTurnNext(job, sites, orders, more[..n], moreOrders[..n], more[n], moreOrders[n]);
      ButLast(more);
      ButLast(moreOrders);
    }
  }

  lemma ButLast<T>(s: seq<T>)
    requires s != []
    ensures s == s[..|s| - 1] + [s[|s| - 1]]
  {
  }

  lemma RunsInTurnNext(job: Job, sites: seq<SiteBillingInfo>, orders: seq<seq<string>>, more: seq<SiteBillingInfo>,
                       moreOrders: seq<seq<string>>, last: SiteBillingInfo, order: seq<string>)
    requires |orders| == |sites| && |moreOrders| == |more|
    requires job.RunLog(sites + more, orders + moreOrders) == job.RunLog(sites, orders) + job.RunLog(more, moreOrders)
    ensures job.RunLog(sites + (more + [last]), orders + (moreOrders + [order]))
         == job.RunLog(sites, orders) + job.RunLog(more + [last], moreOrders + [order])
  {
    Grouping(sites, more, [last]);
    Grouping(orders, moreOrders, [order]);
    RunNext(job, sites + more, orders + moreOrders, last, order);
    RunNext(job, more, moreOrders, last, order);
    Grouping(job.RunLog(sites, orders), job.RunLog(more, moreOrders), job.TenantLog(last, order));
  }

  lemma RunNext(job: Job, sites: seq<SiteBillingInfo>, orders: seq<seq<string>>, last: SiteBillingInfo, order: seq<string>)
    requires |orders| == |sites|
    ensures job.RunLog(sites + [last], orders + [order]) == job.RunLog(sites, orders) + job.TenantLog(last, order)
  {
    assert (sites + [last])[..|sites|] == sites && (orders + [order])[..|orders|] == orders;
  }

  predicate DistinctTenants(sites: seq<SiteBillingInfo>) {
    forall i, j :: 0 <= i < j < |sites| ==> sites[i].tenantID != sites[j].tenantID
  }

  lemma {:induction false} AloneIsOneSite(job: Job, sites: seq<SiteBillingInfo>, orders: seq<seq<string>>, i: nat)
    requires |orders| == |sites| && DistinctTenants(sites) && i < |sites|
    ensures Alone(job, sites, orders, sites[i].tenantID) == job.TenantLog(sites[i], orders[i])
  {
    var n := |sites| - 1;
    if i < n {
      AloneIsOneSite(job, sites[..n], orders[..n], i);
      assert sites[..n][i] == sites[i];
    } else {
      NoneAlone(job, sites[..n], orders[..n], sites[n].tenantID);
    }
  }

  lemma {:induction false} NoneAlone(job: Job, sites: seq<SiteBillingInfo>, orders: seq<seq<string>>, tenantID: string)
    requires |orders| == |sites| && forall s :: s in sites ==> s.tenantID != tenantID
    ensures Alone(job, sites, orders, tenantID) == []
  {
    if sites != [] {
      NoneAlone(job, sites[..|sites| - 1], orders[..|sites| - 1], tenantID);
    }
  }

  /** Two runs that look the same to a tenant: whatever else differs, usage, failures and answers. */
  ghost predicate SameFor(tenantID: string, job1: Job, job2: Job) {
    && job1.period == job2.period && job1.prices == job2.prices && job1.included == job2.included
    && InRange(job1.events, tenantID, job1.period) == InRange(job2.events, tenantID, job2.period)
    && job1.unreadable(tenantID) == job2.unreadable(tenantID)
    && forall c: Call :: TenantOf(c) == tenantID ==> job1.refuses(c) == job2.refuses(c)
  }

  lemma {:induction false} SameLines(job1: Job, job2: Job, site: SiteBillingInfo, order: seq<string>)
    requires SameFor(site.tenantID, job1, job2)
    ensures job1.LineLog(site, order) == job2.LineLog(site, order)
    ensures job1.Stopped(site, order) == job2.Stopped(site, order)
  {
    if order != [] {
      var kind := order[|order| - 1];
      SameLines(job1, job2, site, order[..|order| - 1]);
      assert job1.Total(site.tenantID, kind) == job2.Total(site.tenantID, kind);
      assert job1.ItemOf(site, kind) == job2.ItemOf(site, kind);
      assert TenantOf(Line(job1.ItemOf(site, kind))) == site.tenantID;
    }
  }

  /** Failures stay with their tenant: with one site a tenant, the calls made for a tenant are those of a
      run for that tenant alone, in which anything may be different for the others. */
  lemma FailuresAreIsolated(job: Job, alone: Job, sites: seq<SiteBillingInfo>, orders: seq<seq<string>>, i: nat)
    requires |orders| == |sites| && DistinctTenants(sites) && i < |sites| && SameFor(sites[i].tenantID, job, alone)
    ensures Project(job.RunLog(sites, orders), sites[i].tenantID) == alone.RunLog([sites[i]], [orders[i]])
  {
    var site, order := sites[i], orders[i];
    ProjectRun(job, sites, orders, site.tenantID);
    AloneIsOneSite(job, sites, orders, i);
    SameLines(job, alone, site, order);
    assert TenantOf(Close(site.tenantID, job.period)) == site.tenantID;
    assert alone.RunLog([site][..0], [order][..0]) == [];
    assert [] + alone.TenantLog(site, order) == alone.TenantLog(site, order);
  }

  // ---------------------------------------------------------------- tenants with several sites

  /** The accepted lines of a tenant for a kind. */
  function TimesBilled(log: seq<Attempt>, tenantID: string, kind: string): nat {
    if log == [] then 0
    else TimesBilled(log[..|log| - 1], tenantID, kind) + if Bills(log[|log| - 1], tenantID, kind) then 1 else 0
  }

  predicate Bills(a: Attempt, tenantID: string, kind: string) {
    a.accepted && a.call.Line? && a.call.item.tenantID == tenantID && a.call.item.kind == kind
  }

  lemma {:induction false} TimesBilledJoin(log: seq<Attempt>, more: seq<Attempt>, tenantID: string, kind: string)
    ensures TimesBilled(log + more, tenantID, kind) == TimesBilled(log, tenantID, kind) + TimesBilled(more, tenantID, kind)
  {
    if more == [] {
      assert log + more == log;
    } else {
      TimesBilledJoin(log, more[..|more| - 1], tenantID, kind);
      assert (log + more)[..|log + more| - 1] == log + more[..|more| - 1];
    }
  }

  /** The tenant's sites on whose plan a kind is due. */
  function DueSites(job: Job, sites: seq<SiteBillingInfo>, tenantID: string, kind: string): nat {
    if sites == [] then 0
    else
      var site := sites[|sites| - 1];
      DueSites(job, sites[..|sites| - 1], tenantID, kind)
      + if site.tenantID == tenantID && job.Due(site, kind) then 1 else 0
  }

  /** Nothing fails for the tenant. */
  ghost predicate Smooth(job: Job, tenantID: string) {
    !job.unreadable(tenantID) && forall c: Call :: TenantOf(c) == tenantID ==> !job.refuses(c)
  }

  lemma {:induction false} LinesBilled(job: Job, site: SiteBillingInfo, order: seq<string>, kind: string)
    requires forall i, j :: 0 <= i < j < |order| ==> order[i] != order[j]
    requires Smooth(job, site.tenantID)
    ensures !job.Stopped(site, order)
    ensures TimesBilled(job.LineLog(site, order), site.tenantID, kind)
         == if kind in order && job.Due(site, kind) then 1 else 0
  {
    if order != [] {
      var n := |order| - 1;
      var last, lines := order[n], job.LineLog(site, order[..n]);
      LinesBilled(job, site, order[..n], kind);
      assert order == order[..n] + [last];
      assert TenantOf(Line(job.ItemOf(site, last))) == site.tenantID;
      assert (lines + [LineAttempt(job, site, last)])[..|lines|] == lines;
      assert lines + [] == lines;
    }
  }

  lemma SiteBilled(job: Job, site: SiteBillingInfo, order: seq<string>, tenantID: string, kind: string)
    requires job.Ordered(site, order) && Smooth(job, tenantID) && kind in job.Kinds(tenantID)
    ensures TimesBilled(job.TenantLog(site, order), tenantID, kind)
         == if site.tenantID == tenantID && job.Due(site, kind) then 1 else 0
  {
    var log := job.TenantLog(site, order);
    if site.tenantID == tenantID {
      var lines := job.LineLog(site, order);
      LinesBilled(job, site, order, kind);
      assert log[..|lines|] == lines && !Bills(log[|lines|], tenantID, kind);
    } else {
      ProjectTenantLog(job, site, order, tenantID);
      NotBilled(log, tenantID, kind);
    }
  }

  lemma {:induction false} NotBilled(log: seq<Attempt>, tenantID: string, kind: string)
    requires Project(log, tenantID) == []
    ensures TimesBilled(log, tenantID, kind) == 0
  {
    if log != [] {
      NotBilled(log[..|log| - 1], tenantID, kind);
    }
  }

  /** Usage is read by tenant but billed by site: when nothing fails, a kind the tenant used is billed once
      for each of the tenant's sites on whose plan it is due, each time in full. So it is billed at most
      once exactly when at most one of those sites has it due. */
  lemma {:induction false} BilledOncePerSite(job: Job, sites: seq<SiteBillingInfo>, orders: seq<seq<string>>,
                                             tenantID: string, kind: string)
    requires |orders| == |sites| && job.AllOrdered(sites, orders)
    requires Smooth(job, tenantID) && kind in job.Kinds(tenantID)
    ensures TimesBilled(job.RunLog(sites, orders), tenantID, kind) == DueSites(job, sites, tenantID, kind)
  {
    if sites != [] {
      var n := |sites| - 1;
      BilledOncePerSite(job, sites[..n], orders[..n], tenantID, kind);
      SiteBilled(job, sites[n], orders[n], tenantID, kind);
      TimesBilledJoin(job.RunLog(sites[..n], orders[..n]), job.TenantLog(sites[n], orders[n]), tenantID, kind);
    }
  }

  lemma OneKindOnly(job: Job, event: UsageEvent)
    requires job.events == [event] && job.period.Holds(event.occurredAt)
    ensures job.Kinds(event.tenantID) == {event.kind} && job.Total(event.tenantID, event.kind) == event.quantity
  {
    assert InRange([event], event.tenantID, job.period) == [event] by {
      assert InRange([], event.tenantID, job.period) == [];
    }
    assert Total([], event.kind) == 0.0;
  }

  lemma OneLine(job: Job, site: SiteBillingInfo, kind: string)
    requires job.Due(site, kind) && !job.unreadable(site.tenantID) && !job.refuses(Line(job.ItemOf(site, kind)))
    ensures job.TenantLog(site, [kind]) == [LineAttempt(job, site, kind), CloseAttempt(job, site.tenantID)]
  {
    assert [kind][..0] == [] && !job.Stopped(site, []) && job.LineLog(site, []) == [];
  }

  /** So a tenant with two sites can be charged double: one unit used, two lines of one unit. */
  lemma TwoSitesDoubleBill(tenantID: string, kind: string)
    ensures var period := Period(0, 2);
            var event := UsageEvent("s", tenantID, kind, 1.0, 1);
            var job := Job(period, map["starter" := map[kind := 1.0]], map[], [event], _ => false, _ => false);
            var line := Attempt(Line(InvoiceItem(tenantID, kind, 1.0, 1.0, period)), true);
            var closing := Attempt(Close(tenantID, period), true);
            var sites := [SiteBillingInfo("s", tenantID, "starter"), SiteBillingInfo("t", tenantID, "starter")];
            && job.AllOrdered(sites, [[kind], [kind]])
            && job.RunLog(sites, [[kind], [kind]]) == [line, closing, line, closing]
  {
    var period := Period(0, 2);
    var event := UsageEvent("s", tenantID, kind, 1.0, 1);
    var job := Job(period, map["starter" := map[kind := 1.0]], map[], [event], _ => false, _ => false);
    var s, t := SiteBillingInfo("s", tenantID, "starter"), SiteBillingInfo("t", tenantID, "starter");
    OneKindOnly(job, event);
    OneLine(job, s, kind);
    OneLine(job, t, kind);
    assert [s, t][..1] == [s] && [s][..0] == [] && [[kind], [kind]][..1] == [[kind]];
    assert job.RunLog([s], [[kind]]) == job.TenantLog(s, [kind]) by {
      assert [[kind]][..0] == [];
    }
  }

  // ---------------------------------------------------------------- plans without prices

  /** A plan whose row in the price table is missing or empty is never billed a line, however much is used. */
  lemma {:induction false} UnpricedPlanIsFree(job: Job, site: SiteBillingInfo, order: seq<string>)
    requires site.plan in job.prices ==> job.prices[site.plan] == map[]
    ensures job.LineLog(site, order) == [] && !job.Stopped(site, order)
  {
    if order != [] {
      UnpricedPlanIsFree(job, site, order[..|order| - 1]);
    }
  }

  /** Nothing but the closing is asked for exactly when no kind is due. */
  lemma {:induction false} NoLinesIff(job: Job, site: SiteBillingInfo, order: seq<string>)
    ensures job.LineLog(site, order) == [] <==> forall kind :: kind in order ==> !job.Due(site, kind)
  {
    if order != [] {
      NoLinesIff(job, site, order[..|order| - 1]);
      StoppedMeans(job, site, order[..|order| - 1]);
      assert order == order[..|order| - 1] + [order[|order| - 1]];
    }
  }

  lemma OnlyClosedIff(job: Job, site: SiteBillingInfo, order: seq<string>)
    requires job.Ordered(site, order) && !job.unreadable(site.tenantID)
    ensures job.TenantLog(site, order) == [CloseAttempt(job, site.tenantID)]
       <==> forall kind :: kind in job.Kinds(site.tenantID) ==> !job.Due(site, kind)
  {
    NoLinesIff(job, site, order);
    StoppedMeans(job, site, order);
    var log, lines := job.TenantLog(site, order), job.LineLog(site, order);
    if lines == [] {
      assert [] + [CloseAttempt(job, site.tenantID)] == [CloseAttempt(job, site.tenantID)];
    } else {
      var kind := LinesAreDue(job, site, order, lines[0]);
      assert log[0] == lines[0] && log[0].call.Line?;
    }
  }

  /** That goes for the free plan and the default prices: past the included quantities nothing is billed,
      at the starter rates or any others. */
  lemma FreePlanIsFree(job: Job, site: SiteBillingInfo, order: seq<string>)
    requires job.prices == DEFAULT_PRICES && site.plan == "free" && !job.unreadable(site.tenantID)
    ensures job.TenantLog(site, order) == [CloseAttempt(job, site.tenantID)]
  {
    UnpricedPlanIsFree(job, site, order);
  }

  /** The job with the free plan priced as documented. */
  function FreeAtStarterRates(job: Job): Job
    requires "starter" in job.prices
  {
    job.(prices := job.prices["free" := job.prices["starter"]])
  }

  /** What a free tenant is billed is what is documented exactly when its usage cannot be read or no kind with
      a starter price is over what the free plan includes. */
  lemma FreePlanAsDocumentedIff(job: Job, site: SiteBillingInfo, order: seq<string>)
    requires job.prices == DEFAULT_PRICES && site.plan == "free" && job.Ordered(site, order)
    ensures job.TenantLog(site, order) == FreeAtStarterRates(job).TenantLog(site, order)
       <==> || job.unreadable(site.tenantID)
            || forall kind :: kind in job.Kinds(site.tenantID) && Lookup(DEFAULT_PRICES, "starter", kind) != 0.0 ==>
                 job.Total(site.tenantID, kind) <= Lookup(job.included, "free", kind)
  {
    var documented := FreeAtStarterRates(job);
    if !job.unreadable(site.tenantID) {
      FreePlanIsFree(job, site, order);
      OnlyClosedIff(documented, site, order);
      forall kind
        ensures documented.Due(site, kind)
           <==> && job.Total(site.tenantID, kind) > Lookup(job.included, "free", kind)
                && Lookup(DEFAULT_PRICES, "starter", kind) != 0.0
      {
        assert Lookup(documented.prices, "free", kind) == Lookup(DEFAULT_PRICES, "starter", kind);
      }
    }
  }

  /** One run more than the free plan includes: documented as a line of one run, billed nothing. */
  lemma FreeRunIsNotBilled(tenantID: string)
    ensures var period := Period(0, 2);
            var event := UsageEvent("s", tenantID, "agent_run", 101.0, 1);
            var job := Job(period, DEFAULT_PRICES, DEFAULT_INCLUDED, [event], _ => false, _ => false);
            var site := SiteBillingInfo("s", tenantID, "free");
            var line := Attempt(Line(InvoiceItem(tenantID, "agent_run", 1.0, 0.001, period)), true);
            var closing := Attempt(Close(tenantID, period), true);
            && job.Ordered(site, ["agent_run"])
            && job.TenantLog(site, ["agent_run"]) == [closing]
            && FreeAtStarterRates(job).TenantLog(site, ["agent_run"]) == [line, closing]
  {
    var period := Period(0, 2);
    var event := UsageEvent("s", tenantID, "agent_run", 101.0, 1);
    var job := Job(period, DEFAULT_PRICES, DEFAULT_INCLUDED, [event], _ => false, _ => false);
    var site := SiteBillingInfo("s", tenantID, "free");
    FreePlanIsFree(job, site, ["agent_run"]);
    OneKindOnly(job, event);
    OneLine(FreeAtStarterRates(job), site, "agent_run");
  }
}
