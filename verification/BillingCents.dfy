/** What reaches Stripe, in cents: how far truncation and dropped lines let it fall short of the usage. Exact
    arithmetic on reals; that the program's floats round is not considered. */
module BillingCents {
  import opened Usage
  import opened Invoicing
  import opened Billing
  import opened BillingLaws
  import HostNames

  // ---------------------------------------------------------------- sums over kinds

  function Sum(f: string -> real, order: seq<string>): real {
    if order == [] then 0.0 else Sum(f, order[..|order| - 1]) + f(order[|order| - 1])
  }

  lemma {:induction false} SumJoin(f: string -> real, front: seq<string>, back: seq<string>)
    ensures Sum(f, front + back) == Sum(f, front) + Sum(f, back)
  {
    if back == [] {
      assert front + back == front;
    } else {
      var n := |back| - 1;
      SumJoin(f, front, back[..n]);
      assert (front + back)[..|front + back| - 1] == front + back[..n];
    }
  }

  lemma SumAround(f: string -> real, front: seq<string>, x: string, back: seq<string>)
    ensures Sum(f, (front + [x]) + back) == Sum(f, front + back) + f(x)
  {
    SumJoin(f, front + [x], back);
    SumJoin(f, front, back);
    assert (front + [x])[..|front|] == front;
  }

  /** Taking one kind out. */
  lemma SumWithout(f: string -> real, order: seq<string>, i: nat)
    requires i < |order|
    ensures Sum(f, order) == Sum(f, order[..i] + order[i + 1..]) + f(order[i])
  {
    SumAround(f, order[..i], order[i], order[i + 1..]);
    Around(order, i);
  }

  lemma Around<T>(s: seq<T>, i: nat)
    requires i < |s|
    ensures s == (s[..i] + [s[i]]) + s[i + 1..]
  {
  }

  /** Whatever their orders, sums compare term by term; terms only the second has must not be negative. */
  lemma {:induction false} SumAtMost(f: string -> real, front: seq<string>, g: string -> real, back: seq<string>)
    requires forall i, j :: 0 <= i < j < |front| ==> front[i] != front[j]
    requires forall x :: x in back ==> g(x) >= 0.0
    requires forall x :: x in front ==> f(x) <= if x in back then g(x) else 0.0
    ensures Sum(f, front) <= Sum(g, back)
    decreases |front|, |back|
  {
    if front == [] {
      if back != [] {
        assert forall x :: x in back[..|back| - 1] ==> x in back;
        SumAtMost(f, front, g, back[..|back| - 1]);
      }
    } else {
      var n := |front| - 1;
      var x := front[n];
      assert x in front;
      if x in back {
        var i :| 0 <= i < |back| && back[i] == x;
        var rest := back[..i] + back[i + 1..];
        SumWithout(g, back, i);
        assert forall y :: y in rest ==> y in back;
        forall y | y in front[..n]
          ensures f(y) <= if y in rest then g(y) else 0.0
        {
          assert y in front && y != x;
          assert y in back ==> y in rest;
        }
        SumAtMost(f, front[..n], g, rest);
      } else {
        assert forall y :: y in front[..n] ==> y in front;
        SumAtMost(f, front[..n], g, back);
      }
    }
  }

  // ---------------------------------------------------------------- one line

  function Clamped(x: real): real {
    if x < 0.0 then 0.0 else x
  }

  /** What a kind is worth: cents for what the tenant used of it in the period past the included quantity. */
  function Worth(job: Job, site: SiteBillingInfo, kind: string): real {
    var over := Used(job.events, site.tenantID, kind, job.period) - Lookup(job.included, site.plan, kind);
    Clamped(over) * Lookup(job.prices, site.plan, kind) * 100.0
  }

  /** What its line comes to: whole cents, and none at all below one. */
  function LineCents(job: Job, site: SiteBillingInfo, kind: string): int {
    if job.Due(site, kind) && CentsOf(job.ItemOf(site, kind)) > 0 then CentsOf(job.ItemOf(site, kind)) else 0
  }

  /** No price pays the tenant. */
  ghost predicate PaysUp(job: Job, site: SiteBillingInfo) {
    forall kind :: Lookup(job.prices, site.plan, kind) >= 0.0
  }

  lemma LineFallsShort(job: Job, site: SiteBillingInfo, kind: string)
    requires Lookup(job.prices, site.plan, kind) >= 0.0
    ensures var worth, cents := Worth(job, site, kind), LineCents(job, site, kind);
            if job.Due(site, kind) then cents as real <= worth < cents as real + 1.0 else worth == 0.0 && cents == 0
  {
    var billable, price := job.Billable(site, kind), Lookup(job.prices, site.plan, kind);
    if billable <= 0.0 {
      assert Worth(job, site, kind) == 0.0 * price * 100.0;
    } else if price == 0.0 {
      assert Worth(job, site, kind) == billable * 0.0 * 100.0;
    } else {
      assert Worth(job, site, kind) == billable * price * 100.0;
      Product(billable, price);
    }
  }

  lemma Product(x: real, y: real)
    requires x >= 0.0 && y >= 0.0
    ensures x * y >= 0.0
  {
  }

  lemma CentsGrow(quantity: real, larger: real, price: real)
    requires quantity <= larger && price >= 0.0
    ensures Cents(quantity, price) <= Cents(larger, price)
  {
    Product(larger - quantity, price);
    assert larger * price == quantity * price + (larger - quantity) * price;
  }

  /** More usage never makes for a smaller line. */
  lemma LineGrows(job: Job, more: Job, site: SiteBillingInfo, kind: string)
    requires PaysUp(job, site) && more.prices == job.prices && more.included == job.included
    requires job.Total(site.tenantID, kind) <= more.Total(site.tenantID, kind)
    ensures 0 <= LineCents(job, site, kind) <= LineCents(more, site, kind)
  {
    var price := Lookup(job.prices, site.plan, kind);
    assert job.Due(site, kind) ==> more.Due(site, kind);
    assert Cents(job.Billable(site, kind), price) <= Cents(more.Billable(site, kind), price) by {
      assert price >= 0.0;
      CentsGrow(job.Billable(site, kind), more.Billable(site, kind), price);
    }
  }

  // ---------------------------------------------------------------- one tenant

  ghost function CentsBy(job: Job, site: SiteBillingInfo): string -> real {
    kind => LineCents(job, site, kind) as real
  }

  ghost function WorthBy(job: Job, site: SiteBillingInfo): string -> real {
    kind => Worth(job, site, kind)
  }

  function DueKinds(job: Job, site: SiteBillingInfo, order: seq<string>): nat {
    if order == [] then 0
    else DueKinds(job, site, order[..|order| - 1]) + if job.Due(site, order[|order| - 1]) then 1 else 0
  }

  lemma {:induction false} LinesFallShort(job: Job, site: SiteBillingInfo, order: seq<string>)
    requires PaysUp(job, site)
    ensures var short := Sum(WorthBy(job, site), order) - Sum(CentsBy(job, site), order);
            && 0.0 <= short <= DueKinds(job, site, order) as real
            && (DueKinds(job, site, order) > 0 ==> short < DueKinds(job, site, order) as real)
  {
    if order != [] {
      LinesFallShort(job, site, order[..|order| - 1]);
      LineFallsShort(job, site, order[|order| - 1]);
    }
  }

  function CentsIn(postings: seq<Posting>): real {
    if postings == [] then 0.0 else CentsIn(postings[..|postings| - 1]) + postings[|postings| - 1].cents as real
  }

  lemma {:induction false} CentsJoin(postings: seq<Posting>, more: seq<Posting>)
    ensures CentsIn(postings + more) == CentsIn(postings) + CentsIn(more)
  {
    if more == [] {
      assert postings + more == postings;
    } else {
      CentsJoin(postings, more[..|more| - 1]);
      assert (postings + more)[..|postings + more| - 1] == postings + more[..|more| - 1];
    }
  }

  predicate OnStripe(stripe: Stripe, tenantID: string) {
    stripe.customer(tenantID).Some? && stripe.customer(tenantID).value != ""
  }

  lemma LinePosted(job: Job, stripe: Stripe, site: SiteBillingInfo, kind: string)
    requires job.Due(site, kind)
    ensures var call := Line(job.ItemOf(site, kind));
            && 0.0 <= CentsIn(stripe.PostingOf(call)) <= LineCents(job, site, kind) as real
            && (OnStripe(stripe, site.tenantID) && !stripe.Refuses(call) ==>
                  CentsIn(stripe.PostingOf(call)) == LineCents(job, site, kind) as real)
  {
  }

  lemma PostedNext(stripe: Stripe, log: seq<Attempt>, a: Attempt)
    ensures CentsIn(stripe.PostingsOf(log + [a])) == CentsIn(stripe.PostingsOf(log)) + CentsIn(stripe.PostingOf(a.call))
  {
    stripe.PostingsExtend(log, a);
    CentsJoin(stripe.PostingsOf(log), stripe.PostingOf(a.call));
  }

  /** What a run posts for a tenant is what its lines come to, or less when a line is refused. */
  lemma {:induction false} LinesPosted(job: Job, stripe: Stripe, site: SiteBillingInfo, order: seq<string>)
    requires job.refuses == stripe.Refuses
    ensures var posted := CentsIn(stripe.PostingsOf(job.LineLog(site, order)));
            && 0.0 <= posted <= Sum(CentsBy(job, site), order)
            && (OnStripe(stripe, site.tenantID) && !job.Stopped(site, order) ==> posted == Sum(CentsBy(job, site), order))
  {
    if order != [] {
      var n := |order| - 1;
      var kind, log := order[n], job.LineLog(site, order[..n]);
      LinesPosted(job, stripe, site, order[..n]);
      if job.Stopped(site, order[..n]) || !job.Due(site, kind) {
        assert log + [] == log;
      } else {
        var a := LineAttempt(job, site, kind);
        PostedNext(stripe, log, a);
        LinePosted(job, stripe, site, kind);
      }
    }
  }

  /** The cents a run posts for one site. */
  function Posted(job: Job, stripe: Stripe, site: SiteBillingInfo, order: seq<string>): real {
    CentsIn(stripe.PostingsOf(job.TenantLog(site, order)))
  }

  lemma PostedIsLines(job: Job, stripe: Stripe, site: SiteBillingInfo, order: seq<string>)
    requires job.refuses == stripe.Refuses
    ensures Posted(job, stripe, site, order)
         == if job.unreadable(site.tenantID) then 0.0 else CentsIn(stripe.PostingsOf(job.LineLog(site, order)))
  {
    var log, lines := job.TenantLog(site, order), job.LineLog(site, order);
    if !job.unreadable(site.tenantID) {
      if job.Stopped(site, order) {
        assert log == lines;
      } else {
        stripe.PostingsExtend(lines, CloseAttempt(job, site.tenantID));
        assert stripe.PostingsOf(lines) + [] == stripe.PostingsOf(lines);
      }
    }
  }

  /** A tenant is never charged more than its usage past the included quantities is worth, whatever fails;
      and where the invoice is closed, less than one cent short of it for each kind that is due. */
  lemma ChargedWhatItIsWorth(job: Job, stripe: Stripe, site: SiteBillingInfo, order: seq<string>)
    requires job.Ordered(site, order) && PaysUp(job, site) && job.refuses == stripe.Refuses
    ensures var posted, worth := Posted(job, stripe, site, order), Sum(WorthBy(job, site), order);
            var due := DueKinds(job, site, order);
            && (!job.unreadable(site.tenantID) ==> posted <= worth)
            && (job.unreadable(site.tenantID) ==> posted == 0.0)
            && (Closing(job.TenantLog(site, order)) && OnStripe(stripe, site.tenantID) ==>
                  worth - posted <= due as real && (due > 0 ==> worth - posted < due as real))
  {
    PostedIsLines(job, stripe, site, order);
    LinesPosted(job, stripe, site, order);
    LinesFallShort(job, site, order);
    if Closing(job.TenantLog(site, order)) {
      ClosedUnlessRefused(job, site, order);
      StoppedMeans(job, site, order);
    }
  }

  // ---------------------------------------------------------------- a tenant over a whole run

  /** The cents posted by the calls of a log. */
  function CentsFor(stripe: Stripe, log: seq<Attempt>): real {
    if log == [] then 0.0 else CentsFor(stripe, log[..|log| - 1]) + CentsIn(stripe.PostingOf(log[|log| - 1].call))
  }

  lemma {:induction false} CentsForIsPosted(stripe: Stripe, log: seq<Attempt>)
    ensures CentsFor(stripe, log) == CentsIn(stripe.PostingsOf(log))
  {
    if log != [] {
      CentsForIsPosted(stripe, log[..|log| - 1]);
      CentsJoin(stripe.PostingsOf(log[..|log| - 1]), stripe.PostingOf(log[|log| - 1].call));
    }
  }

  lemma {:induction false} CentsForJoin(stripe: Stripe, log: seq<Attempt>, more: seq<Attempt>)
    ensures CentsFor(stripe, log + more) == CentsFor(stripe, log) + CentsFor(stripe, more)
  {
    if more == [] {
      assert log + more == log;
    } else {
      CentsForJoin(stripe, log, more[..|more| - 1]);
      assert (log + more)[..|log + more| - 1] == log + more[..|more| - 1];
    }
  }

  lemma PostedJoin(stripe: Stripe, log: seq<Attempt>, more: seq<Attempt>)
    ensures CentsIn(stripe.PostingsOf(log + more)) == CentsIn(stripe.PostingsOf(log)) + CentsIn(stripe.PostingsOf(more))
  {
    CentsForJoin(stripe, log, more);
    CentsForIsPosted(stripe, log);
    CentsForIsPosted(stripe, more);
    CentsForIsPosted(stripe, log + more);
  }

  /** What a customer is charged for a tenant. */
  function Charged(postings: seq<Posting>, tenantID: string, customer: string): real {
    if postings == [] then 0.0
    else
      var p := postings[|postings| - 1];
      Charged(postings[..|postings| - 1], tenantID, customer)
      + if p.tenantID == tenantID && p.customer == customer then p.cents as real else 0.0
  }

  /** One call posts for its own tenant, to the customer that tenant is. */
  lemma ChargedNext(stripe: Stripe, postings: seq<Posting>, c: Call, tenantID: string, customer: string)
    ensures Charged(postings + stripe.PostingOf(c), tenantID, customer)
         == Charged(postings, tenantID, customer)
            + if TenantOf(c) == tenantID && stripe.customer(tenantID) == HostNames.Option.Some(customer)
              then CentsIn(stripe.PostingOf(c)) else 0.0
  {
    var more := stripe.PostingOf(c);
    if more == [] {
      assert postings + more == postings;
    } else {
      assert (postings + more)[..|postings|] == postings && more[..0] == [];
    }
  }

  /** What a customer is charged for a tenant comes from the calls for that tenant, and no other customer is. */
  lemma {:induction false} ChargedToCustomer(stripe: Stripe, log: seq<Attempt>, tenantID: string, customer: string)
    ensures Charged(stripe.PostingsOf(log), tenantID, customer)
         == if stripe.customer(tenantID) == HostNames.Option.Some(customer) then CentsFor(stripe, Project(log, tenantID)) else 0.0
  {
    if log != [] {
      var n := |log| - 1;
      ChargedToCustomer(stripe, log[..n], tenantID, customer);
      ChargedNext(stripe, stripe.PostingsOf(log[..n]), log[n].call, tenantID, customer);
      if TenantOf(log[n].call) == tenantID {
        assert (Project(log[..n], tenantID) + [log[n]])[..|Project(log[..n], tenantID)|] == Project(log[..n], tenantID);
      } else {
        assert Project(log[..n], tenantID) + [] == Project(log[..n], tenantID);
      }
    }
  }

  /** What a run posts for a tenant, for all its sites. */
  function TenantPosted(job: Job, stripe: Stripe, sites: seq<SiteBillingInfo>, orders: seq<seq<string>>, tenantID: string): real
    requires |orders| == |sites|
  {
    CentsIn(stripe.PostingsOf(Project(job.RunLog(sites, orders), tenantID)))
  }

  /** What the tenant's usage is worth, on the plan of each of its sites. */
  ghost function TenantWorth(job: Job, sites: seq<SiteBillingInfo>, orders: seq<seq<string>>, tenantID: string): real
    requires |orders| == |sites|
  {
    if sites == [] then 0.0
    else
      var n := |sites| - 1;
      TenantWorth(job, sites[..n], orders[..n], tenantID)
      + if sites[n].tenantID == tenantID then Sum(WorthBy(job, sites[n]), orders[n]) else 0.0
  }

  function TenantDue(job: Job, sites: seq<SiteBillingInfo>, orders: seq<seq<string>>, tenantID: string): nat
    requires |orders| == |sites|
  {
    if sites == [] then 0
    else
      var n := |sites| - 1;
      TenantDue(job, sites[..n], orders[..n], tenantID)
      + if sites[n].tenantID == tenantID then DueKinds(job, sites[n], orders[n]) else 0
  }

  /** Each of the tenant's sites had its invoice closed. */
  predicate AllClosed(job: Job, sites: seq<SiteBillingInfo>, orders: seq<seq<string>>, tenantID: string)
    requires |orders| == |sites|
  {
    forall i :: 0 <= i < |sites| && sites[i].tenantID == tenantID ==> Closing(job.TenantLog(sites[i], orders[i]))
  }

  lemma AllClosedButLast(job: Job, sites: seq<SiteBillingInfo>, orders: seq<seq<string>>, tenantID: string)
    requires |orders| == |sites| > 0
    ensures var n := |sites| - 1;
            AllClosed(job, sites, orders, tenantID)
            == (AllClosed(job, sites[..n], orders[..n], tenantID)
                && (sites[n].tenantID == tenantID ==> Closing(job.TenantLog(sites[n], orders[n]))))
  {
    assert forall i :: 0 <= i < |sites| - 1 ==> sites[..|sites| - 1][i] == sites[i] && orders[..|sites| - 1][i] == orders[i];
  }

  /** Site by site what the run posts for the tenant is what each of them is charged. */
  lemma TenantPostedNext(job: Job, stripe: Stripe, sites: seq<SiteBillingInfo>, orders: seq<seq<string>>, tenantID: string)
    requires |orders| == |sites| > 0
    ensures var n := |sites| - 1;
            TenantPosted(job, stripe, sites, orders, tenantID)
              == TenantPosted(job, stripe, sites[..n], orders[..n], tenantID)
                 + if sites[n].tenantID == tenantID then Posted(job, stripe, sites[n], orders[n]) else 0.0
  {
    var n := |sites| - 1;
    ProjectRun(job, sites, orders, tenantID);
    ProjectRun(job, sites[..n], orders[..n], tenantID);
    if sites[n].tenantID == tenantID {
      PostedJoin(stripe, Alone(job, sites[..n], orders[..n], tenantID), job.TenantLog(sites[n], orders[n]));
    } else {
      assert Alone(job, sites, orders, tenantID) == Alone(job, sites[..n], orders[..n], tenantID);
    }
  }

  /** So over a whole run a tenant's customer is charged no more for it than what its usage is worth on the plans
      of its sites, whatever fails and for whomever; and if each of its invoices is closed, less than one cent
      short of it for each kind that is due on each of them. Nobody else is charged anything for it. */
  lemma RunChargesWhatItIsWorth(job: Job, stripe: Stripe, sites: seq<SiteBillingInfo>, orders: seq<seq<string>>,
                                tenantID: string, customer: string)
    requires |orders| == |sites| && job.AllOrdered(sites, orders) && job.refuses == stripe.Refuses
    requires forall site :: site in sites && site.tenantID == tenantID ==> PaysUp(job, site)
    ensures var charged := Charged(stripe.PostingsOf(job.RunLog(sites, orders)), tenantID, customer);
            var worth, due := TenantWorth(job, sites, orders, tenantID), TenantDue(job, sites, orders, tenantID);
            if stripe.customer(tenantID) == HostNames.Option.Some(customer) && customer != "" && !job.unreadable(tenantID) then
              && charged <= worth
              && (AllClosed(job, sites, orders, tenantID) ==>
                    worth - charged <= due as real && (due > 0 ==> worth - charged < due as real))
            else charged == 0.0
  {
    var log := job.RunLog(sites, orders);
    ChargedToCustomer(stripe, log, tenantID, customer);
    CentsForIsPosted(stripe, Project(log, tenantID));
    RunPostsWhatItIsWorth(job, stripe, sites, orders, tenantID);
    if customer == "" && stripe.customer(tenantID) == HostNames.Option.Some(customer) {
      NobodyCharged(stripe, log, tenantID);
    }
  }

  lemma {:induction false} NobodyCharged(stripe: Stripe, log: seq<Attempt>, tenantID: string)
    requires stripe.customer(tenantID) == HostNames.Option.Some("")
    ensures Charged(stripe.PostingsOf(log), tenantID, "") == 0.0
  {
    if log != [] {
      var n := |log| - 1;
      NobodyCharged(stripe, log[..n], tenantID);
      ChargedNext(stripe, stripe.PostingsOf(log[..n]), log[n].call, tenantID, "");
    }
  }

  lemma {:induction false} RunPostsWhatItIsWorth(job: Job, stripe: Stripe, sites: seq<SiteBillingInfo>,
                                                 orders: seq<seq<string>>, tenantID: string)
    requires |orders| == |sites| && job.AllOrdered(sites, orders) && job.refuses == stripe.Refuses
    requires forall site :: site in sites && site.tenantID == tenantID ==> PaysUp(job, site)
    ensures var posted, worth := TenantPosted(job, stripe, sites, orders, tenantID), TenantWorth(job, sites, orders, tenantID);
            var due := TenantDue(job, sites, orders, tenantID);
            && (!job.unreadable(tenantID) ==> posted <= worth)
            && (job.unreadable(tenantID) ==> posted == 0.0)
            && (AllClosed(job, sites, orders, tenantID) && OnStripe(stripe, tenantID) ==>
                  worth - posted <= due as real && (due > 0 ==> worth - posted < due as real))
  {
    if sites != [] {
      var n := |sites| - 1;
      RunPostsWhatItIsWorth(job, stripe, sites[..n], orders[..n], tenantID);
      TenantPostedNext(job, stripe, sites, orders, tenantID);
      AllClosedButLast(job, sites, orders, tenantID);
      if sites[n].tenantID == tenantID {
        ChargedWhatItIsWorth(job, stripe, sites[n], orders[n]);
      }
    }
  }

  lemma {:induction false} TotalOfOthers(events: seq<UsageEvent>, kind: string)
    requires kind !in KindsOf(events)
    ensures Total(events, kind) == 0.0
  {
    if events != [] {
      var n := |events| - 1;
      assert events[n] in events && forall ev :: ev in events[..n] ==> ev in events;
      TotalOfOthers(events[..n], kind);
    }
  }

  /** No plan starts with usage used up. */
  ghost predicate IncludesNoDebt(job: Job, site: SiteBillingInfo) {
    forall kind :: Lookup(job.included, site.plan, kind) >= 0.0
  }

  /** More usage of any kinds never lowers the bill, whatever the orders the kinds come in. With equal usage
      both ways round, the bill does not depend on the order at all. */
  lemma BillGrows(job: Job, order: seq<string>, more: Job, order': seq<string>, stripe: Stripe, site: SiteBillingInfo)
    requires job.Ordered(site, order) && more.Ordered(site, order') && PaysUp(job, site) && IncludesNoDebt(job, site)
    requires more.prices == job.prices && more.included == job.included
    requires job.refuses == stripe.Refuses && more.refuses == stripe.Refuses
    requires Closing(job.TenantLog(site, order)) && Closing(more.TenantLog(site, order'))
    requires forall kind :: job.Total(site.tenantID, kind) <= more.Total(site.tenantID, kind)
    ensures Posted(job, stripe, site, order) <= Posted(more, stripe, site, order')
  {
    PostedIsLines(job, stripe, site, order);
    PostedIsLines(more, stripe, site, order');
    LinesPosted(job, stripe, site, order);
    LinesPosted(more, stripe, site, order');
    ClosedUnlessRefused(job, site, order);
    ClosedUnlessRefused(more, site, order');
    StoppedMeans(more, site, order');
    if OnStripe(stripe, site.tenantID) {
      SumsGrow(job, order, more, order', site);
    } else {
      NothingPosted(stripe, job, site, order);
    }
  }

  lemma SumsGrow(job: Job, order: seq<string>, more: Job, order': seq<string>, site: SiteBillingInfo)
    requires Enumerates(order, job.Kinds(site.tenantID)) && Enumerates(order', more.Kinds(site.tenantID))
    requires PaysUp(job, site) && IncludesNoDebt(job, site)
    requires more.prices == job.prices && more.included == job.included
    requires forall kind :: job.Total(site.tenantID, kind) <= more.Total(site.tenantID, kind)
    ensures Sum(CentsBy(job, site), order) <= Sum(CentsBy(more, site), order')
  {
    forall kind
      ensures 0 <= LineCents(job, site, kind) <= LineCents(more, site, kind)
      ensures kind !in order' ==> LineCents(more, site, kind) == 0
    {
      LineGrows(job, more, site, kind);
      if kind !in order' {
        TotalOfOthers(InRange(more.events, site.tenantID, more.period), kind);
        assert Lookup(job.included, site.plan, kind) >= 0.0;
      }
    }
    SumAtMost(CentsBy(job, site), order, CentsBy(more, site), order');
  }

  lemma NothingPosted(stripe: Stripe, job: Job, site: SiteBillingInfo, order: seq<string>)
    requires !OnStripe(stripe, site.tenantID)
    ensures stripe.PostingsOf(job.LineLog(site, order)) == []
  {
    forall a | a in job.LineLog(site, order)
      ensures TenantOf(a.call) == site.tenantID
    {
      var kind := LinesAreDue(job, site, order, a);
    }
    NothingSent(stripe, job.LineLog(site, order), site.tenantID);
  }

  lemma {:induction false} NothingSent(stripe: Stripe, log: seq<Attempt>, tenantID: string)
    requires !OnStripe(stripe, tenantID) && forall a :: a in log ==> TenantOf(a.call) == tenantID
    ensures stripe.PostingsOf(log) == []
  {
    if log != [] {
      assert log[|log| - 1] in log && forall a :: a in log[..|log| - 1] ==> a in log;
      NothingSent(stripe, log[..|log| - 1], tenantID);
    }
  }
}
