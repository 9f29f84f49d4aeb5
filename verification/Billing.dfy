/** The reconciler: a period's usage in, invoice calls out, tenant by tenant. */
module Billing {
  import opened Calendar
  import opened Usage
  import opened Invoicing
  import opened HostNames

  datatype SiteBillingInfo = SiteBillingInfo(siteID: string, tenantID: string, plan: string)

  class MemorySiteRepo {
    var sites: seq<SiteBillingInfo>

    constructor ()
      ensures sites == []
    {
      sites := [];
    }

    method Add(s: SiteBillingInfo)
      modifies this
      ensures sites == old(sites) + [s]
    {
      sites := sites + [s];
    }

    method AllActive() returns (out: seq<SiteBillingInfo>)
      ensures out == sites
    {
      out := sites;
    }
  }

  // ---------------------------------------------------------------- prices

  /** By plan and kind. */
  type Table = map<string, map<string, real>>

  const DEFAULT_PRICES: Table := map[
    "free" := map[],
    "starter" := map["api_request" := 0.000005, "agent_run" := 0.001, "storage_gb_hour" := 0.00015],
    "pro" := map["api_request" := 0.000003, "agent_run" := 0.0008, "storage_gb_hour" := 0.0001],
    "enterprise" := map["api_request" := 0.000001, "agent_run" := 0.0005, "storage_gb_hour" := 0.00005]
  ]

  const DEFAULT_INCLUDED: Table := map[
    "free" := map["api_request" := 100000.0, "agent_run" := 100.0],
    "starter" := map["api_request" := 1000000.0, "agent_run" := 1000.0],
    "pro" := map["api_request" := 5000000.0, "agent_run" := 10000.0]
  ]

  /** A row or an entry that is missing reads as zero. */
  function Lookup(t: Table, plan: string, kind: string): real {
    if plan in t && kind in t[plan] then t[plan][kind] else 0.0
  }

  // ---------------------------------------------------------------- what a tenant is billed

  /** Everything one run works with. `refuses` is how the invoicer answers each call. */
  datatype Job = Job(period: Period, prices: Table, included: Table, events: seq<UsageEvent>,
                     unreadable: string -> bool, refuses: Call -> bool) {

    function Total(tenantID: string, kind: string): real {
      Used(events, tenantID, kind, period)
    }

    function Kinds(tenantID: string): set<string> {
      KindsOf(InRange(events, tenantID, period))
    }

    function Billable(site: SiteBillingInfo, kind: string): real {
      Total(site.tenantID, kind) - Lookup(included, site.plan, kind)
    }

    /** Over the included quantity, and priced. */
    predicate Due(site: SiteBillingInfo, kind: string) {
      Billable(site, kind) > 0.0 && Lookup(prices, site.plan, kind) != 0.0
    }

    function ItemOf(site: SiteBillingInfo, kind: string): InvoiceItem {
      InvoiceItem(site.tenantID, kind, Billable(site, kind), Lookup(prices, site.plan, kind), period)
    }

    /** The first of the kinds whose line is refused stops the rest. */
    predicate Stopped(site: SiteBillingInfo, order: seq<string>) {
      order != [] && (Stopped(site, order[..|order| - 1])
                      || (Due(site, order[|order| - 1]) && refuses(Line(ItemOf(site, order[|order| - 1])))))
    }

    function LineLog(site: SiteBillingInfo, order: seq<string>): seq<Attempt> {
      if order == [] then []
      else
        var before, kind := order[..|order| - 1], order[|order| - 1];
        LineLog(site, before)
        + if Stopped(site, before) || !Due(site, kind) then []
          else [Attempt(Line(ItemOf(site, kind)), !refuses(Line(ItemOf(site, kind))))]
    }

    /** The log after one more kind. */
    lemma NextLine(site: SiteBillingInfo, order: seq<string>, i: nat, before: seq<Attempt>, now: seq<Attempt>, ok: bool)
      requires i < |order| && !Stopped(site, order[..i])
      requires ok == !(Due(site, order[i]) && refuses(Line(ItemOf(site, order[i]))))
      requires now == before + LineLog(site, order[..i])
                      + if Due(site, order[i]) then [Attempt(Line(ItemOf(site, order[i])), ok)] else []
      ensures now == before + LineLog(site, order[..i + 1]) && Stopped(site, order[..i + 1]) == !ok
    {
      assert order[..i + 1][..i] == order[..i];
    }

    lemma {:induction false} StaysStopped(site: SiteBillingInfo, order: seq<string>, i: nat)
      requires i <= |order| && Stopped(site, order[..i])
      ensures Stopped(site, order) && LineLog(site, order) == LineLog(site, order[..i])
      decreases |order|
    {
      if i < |order| {
        assert order[..|order| - 1][..i] == order[..i];
        StaysStopped(site, order[..|order| - 1], i);
      } else {
        assert order[..i] == order;
      }
    }

    /** The calls made for one site when its tenant's kinds come in a given order. */
    function TenantLog(site: SiteBillingInfo, order: seq<string>): seq<Attempt> {
      if unreadable(site.tenantID) then []
      else LineLog(site, order)
           + if Stopped(site, order) then []
             else [Attempt(Close(site.tenantID, period), !refuses(Close(site.tenantID, period)))]
    }

    /** The calls made for all sites. */
    function RunLog(sites: seq<SiteBillingInfo>, orders: seq<seq<string>>): seq<Attempt>
      requires |orders| == |sites|
    {
      if sites == [] then []
      else RunLog(sites[..|sites| - 1], orders[..|sites| - 1]) + TenantLog(sites[|sites| - 1], orders[|sites| - 1])
    }

    /** Every kind the tenant has events of, once, in some order. */
    ghost predicate Ordered(site: SiteBillingInfo, order: seq<string>) {
      unreadable(site.tenantID) || Enumerates(order, Kinds(site.tenantID))
    }

    ghost predicate AllOrdered(sites: seq<SiteBillingInfo>, orders: seq<seq<string>>)
      requires |orders| == |sites|
    {
      sites == [] || (AllOrdered(sites[..|sites| - 1], orders[..|sites| - 1])
                      && Ordered(sites[|sites| - 1], orders[|sites| - 1]))
    }

    lemma NextSite(sites: seq<SiteBillingInfo>, orders: seq<seq<string>>, order: seq<string>)
      requires |orders| < |sites|
      ensures var i := |orders|;
              && (AllOrdered(sites[..i + 1], orders + [order]) <==> AllOrdered(sites[..i], orders) && Ordered(sites[i], order))
              && RunLog(sites[..i + 1], orders + [order]) == RunLog(sites[..i], orders) + TenantLog(sites[i], order)
    {
      assert sites[..|orders| + 1][..|orders|] == sites[..|orders|] && (orders + [order])[..|orders|] == orders;
    }
  }

  ghost predicate Enumerates(order: seq<string>, all: set<string>) {
    && (forall x :: x in order <==> x in all)
    && (forall i, j :: 0 <= i < j < |order| ==> order[i] != order[j])
  }

  // ---------------------------------------------------------------- the reconciler

  datatype Invoicer = InMemory(m: MemoryInvoicer) | OnStripe(s: StripeInvoicer) {

    ghost function Store(): object {
      match this
      case InMemory(m) => m
      case OnStripe(s) => s
    }

    ghost predicate Valid()
      reads Store()
    {
      match this
      case InMemory(m) => m.Valid()
      case OnStripe(s) => s.Valid()
    }

    ghost function Log(): seq<Attempt>
      reads Store()
    {
      match this
      case InMemory(m) => m.log
      case OnStripe(s) => s.log
    }

    predicate Refuses(c: Call) {
      OnStripe? && s.stripe.Refuses(c)
    }

    method AddInvoiceItem(item: InvoiceItem) returns (ok: bool)
      requires Valid()
      modifies Store()
      ensures Valid() && ok == !Refuses(Line(item)) && Log() == old(Log()) + [Attempt(Line(item), ok)]
    {
      match this
      case InMemory(m) =>
        m.AddInvoiceItem(item);
        ok := true;
      case OnStripe(s) =>
        ok := s.AddInvoiceItem(item);
    }

    method FinalizeInvoice(tenantID: string, period: Period) returns (ok: bool)
      requires Valid()
      modifies Store()
      ensures Valid() && ok == !Refuses(Close(tenantID, period))
      ensures Log() == old(Log()) + [Attempt(Close(tenantID, period), ok)]
    {
      match this
      case InMemory(m) =>
        m.FinalizeInvoice(tenantID, period);
        ok := true;
      case OnStripe(s) =>
        ok := s.FinalizeInvoice(tenantID, period);
    }
  }

  /** Sums up each kind. */
  method Aggregate(events: seq<UsageEvent>) returns (totals: map<string, real>)
    ensures totals.Keys == KindsOf(events)
    ensures forall kind :: kind in totals ==> totals[kind] == Total(events, kind)
  {
    totals := map[];
    for i := 0 to |events|
      invariant totals.Keys == KindsOf(events[..i])
      invariant forall kind :: (if kind in totals then totals[kind] else 0.0) == Total(events[..i], kind)
    {
      var ev := events[i];
      assert events[..i + 1] == events[..i] + [ev] && events[..i + 1][..i] == events[..i];
      totals := totals[ev.kind := (if ev.kind in totals then totals[ev.kind] else 0.0) + ev.quantity];
    }
    assert events[..|events|] == events;
  }

  /** The kinds in the order the iteration over the totals happens to take. */
  method SomeOrder(all: set<string>) returns (order: seq<string>)
    ensures Enumerates(order, all)
  {
    order := [];
    var todo := all;
    while todo != {}
      invariant todo <= all && Enumerates(order, all - todo)
    {
      var kind :| kind in todo;
      todo := todo - {kind};
      order := order + [kind];
    }
  }

  lemma Grouping<T>(a: seq<T>, b: seq<T>, c: seq<T>)
    ensures (a + b) + c == a + (b + c)
  {
  }

  class Reconciler {
    const sites: MemorySiteRepo
    const usage: MemoryUsageStore
    const invoicer: Invoicer
    const prices: Table
    const included: Table
    /** Stores other than the in-process ones can fail to list the sites or to read a tenant's usage. */
    const unlisted: bool
    const unreadable: string -> bool

    /** Absent tables default. */
    constructor (sites: MemorySiteRepo, usage: MemoryUsageStore, invoicer: Invoicer, prices: Option<Table>,
                 included: Option<Table>, unlisted: bool, unreadable: string -> bool)
      ensures this.sites == sites && this.usage == usage && this.invoicer == invoicer
      requires invoicer.Valid()
      ensures this.prices == prices.GetOr(DEFAULT_PRICES) && this.included == included.GetOr(DEFAULT_INCLUDED)
      ensures this.unlisted == unlisted && this.unreadable == unreadable && Valid()
    {
      this.sites, this.usage, this.invoicer, this.unlisted, this.unreadable := sites, usage, invoicer, unlisted, unreadable;
      this.prices, this.included := prices.GetOr(DEFAULT_PRICES), included.GetOr(DEFAULT_INCLUDED);
      new;
      match invoicer
      case InMemory(m) => assert usage as object != m;
      case OnStripe(s) => assert usage as object != s;
    }

    ghost predicate Valid()
      reads invoicer.Store()
    {
      invoicer.Valid() && usage != invoicer.Store()
    }

    /** `job` is what a run over a period works with now. */
    ghost predicate Runs(job: Job)
      reads usage
    {
      && job.prices == prices && job.included == included
      && job.events == usage.events && job.unreadable == unreadable && job.refuses == invoicer.Refuses
    }

    /** A line for a kind that is over its included quantity and priced. */
    method BillKind(site: SiteBillingInfo, kind: string, total: real, ghost job: Job, period: Period)
      returns (ok: bool)
      requires invoicer.Valid() && job.refuses == invoicer.Refuses && total == job.Total(site.tenantID, kind)
      requires prices == job.prices && included == job.included && job.period == period
      modifies invoicer.Store()
      ensures invoicer.Valid() && ok == !(job.Due(site, kind) && job.refuses(Line(job.ItemOf(site, kind))))
      ensures invoicer.Log() == old(invoicer.Log())
                                + if job.Due(site, kind) then [Attempt(Line(job.ItemOf(site, kind)), ok)] else []
    {
      var billable := total - Lookup(included, site.plan, kind);
      assert invoicer.Log() + [] == invoicer.Log();
      if billable <= 0.0 {
        return true;
      }
      var unit := Lookup(prices, site.plan, kind);
      if unit == 0.0 {
        return true;
      }
      ok := invoicer.AddInvoiceItem(InvoiceItem(site.tenantID, kind, billable, unit, period));
    }

    /** Kind after kind, until a line is refused. */
    method BillKinds(site: SiteBillingInfo, kinds: seq<string>, totals: map<string, real>, ghost job: Job,
                     period: Period)
      returns (ok: bool)
      requires invoicer.Valid() && job.refuses == invoicer.Refuses
      requires prices == job.prices && included == job.included && job.period == period
      requires forall kind :: kind in kinds ==> kind in totals && totals[kind] == job.Total(site.tenantID, kind)
      modifies invoicer.Store()
      ensures invoicer.Valid() && ok == !job.Stopped(site, kinds)
      ensures invoicer.Log() == old(invoicer.Log()) + job.LineLog(site, kinds)
    {
      ok := true;
      ghost var before := invoicer.Log();
      for i := 0 to |kinds|
        invariant invoicer.Valid() && ok && !job.Stopped(site, kinds[..i])
        invariant invoicer.Log() == before + job.LineLog(site, kinds[..i])
      {
        var kind := kinds[i];
        assert kind in kinds;
        ok := BillKind(site, kind, totals[kind], job, period);
        job.NextLine(site, kinds, i, before, invoicer.Log(), ok);
        if !ok {
          job.StaysStopped(site, kinds, i + 1);
          return;
        }
      }
      assert kinds[..|kinds|] == kinds;
    }

    method ReconcileTenant(site: SiteBillingInfo, ghost job: Job, period: Period)
      returns (ok: bool, ghost order: seq<string>)
      requires Valid() && Runs(job) && job.period == period
      modifies invoicer.Store()
      ensures Valid() && Runs(job) && job.Ordered(site, order)
      ensures invoicer.Log() == old(invoicer.Log()) + job.TenantLog(site, order)
    {
      order := [];
      ghost var before := invoicer.Log();
      if unreadable(site.tenantID) {
        assert before + [] == before;
        return false, order;
      }
      var events := usage.Range(site.tenantID, period);
      var totals := Aggregate(events);
      var kinds := SomeOrder(totals.Keys);
      order := kinds;
      ok := BillKinds(site, kinds, totals, job, period);
      ghost var lines := job.LineLog(site, kinds);
      assert lines + [] == lines;
      if ok {
        ok := invoicer.FinalizeInvoice(site.tenantID, period);
        Grouping(before, lines, [Attempt(Close(site.tenantID, period), ok)]);
      }
    }

    /** Sites one by one; one that fails does not keep the others from being billed. */
    method ReconcileAll(active: seq<SiteBillingInfo>, ghost job: Job, period: Period)
      returns (ghost orders: seq<seq<string>>)
      requires Valid() && Runs(job) && job.period == period
      modifies invoicer.Store()
      ensures Valid() && |orders| == |active| && job.AllOrdered(active, orders)
      ensures invoicer.Log() == old(invoicer.Log()) + job.RunLog(active, orders)
    {
      orders := [];
      ghost var before, calls: seq<Attempt> := invoicer.Log(), [];
      for i := 0 to |active|
        invariant Valid() && Runs(job) && |orders| == i && job.AllOrdered(active[..i], orders)
        invariant calls == job.RunLog(active[..i], orders) && invoicer.Log() == before + calls
      {
        var _, order := ReconcileTenant(active[i], job, period);
        job.NextSite(active, orders, order);
        ghost var more := job.TenantLog(active[i], order);
        Grouping(before, calls, more);
        orders, calls := orders + [order], calls + more;
      }
      assert active[..|active|] == active;
    }

    method Reconcile(period: Period, ghost job: Job) returns (ok: bool, ghost orders: seq<seq<string>>)
      requires Valid() && Runs(job) && job.period == period
      modifies invoicer.Store()
      ensures Valid() && ok == !unlisted
      ensures if unlisted then invoicer.Log() == old(invoicer.Log())
              else |orders| == |sites.sites| && job.AllOrdered(sites.sites, orders)
                   && invoicer.Log() == old(invoicer.Log()) + job.RunLog(sites.sites, orders)
    {
      orders := [];
      if unlisted {
        return false, orders;
      }
      var active := sites.AllActive();
      orders := ReconcileAll(active, job, period);
      ok := true;
    }

    /** The monthly job. */
    method RunScheduled(now: int, ghost job: Job) returns (ok: bool, ghost orders: seq<seq<string>>)
      requires Valid() && Runs(job) && job.period == MonthPeriod(MonthOf(now) - 1)
      modifies invoicer.Store()
      ensures Valid() && ok == !unlisted
      ensures if unlisted then invoicer.Log() == old(invoicer.Log())
              else |orders| == |sites.sites| && job.AllOrdered(sites.sites, orders)
                   && invoicer.Log() == old(invoicer.Log()) + job.RunLog(sites.sites, orders)
    {
      JobBillsPreviousMonth(now);
      ok, orders := Reconcile(ScheduledPeriod(now), job);
    }
  }
}
