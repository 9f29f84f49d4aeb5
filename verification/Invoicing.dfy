/** Invoice lines, the two invoicers and the log of the calls they get. */
module Invoicing {
  import opened Calendar
  import opened HostNames

  datatype InvoiceItem = InvoiceItem(tenantID: string, kind: string, quantity: real, unitPriceUSD: real, period: Period)

  datatype Call = Line(item: InvoiceItem) | Close(tenantID: string, period: Period)

  /** A call and whether the invoicer reported success. */
  datatype Attempt = Attempt(call: Call, accepted: bool)

  function TenantOf(c: Call): string {
    match c
    case Line(item) => item.tenantID
    case Close(tenantID, _) => tenantID
  }

  // ---------------------------------------------------------------- cents

  /** The Go conversion of a float to an integer. */
  function Truncated(x: real): int {
    if x >= 0.0 then x.Floor else -((-x).Floor)
  }

  function Cents(quantity: real, unitPriceUSD: real): int {
    var totalUSD := quantity * unitPriceUSD;
    Truncated(totalUSD * 100.0)
  }

  function CentsOf(item: InvoiceItem): int {
    Cents(item.quantity, item.unitPriceUSD)
  }

  // ---------------------------------------------------------------- in memory

  class MemoryInvoicer {
    var items: seq<InvoiceItem>
    var finalized: seq<(string, Period)>
    ghost var log: seq<Attempt>

    ghost predicate Valid()
      reads this
    {
      items == LinesIn(log) && finalized == ClosesIn(log)
    }

    constructor ()
      ensures Valid() && log == []
    {
      items, finalized, log := [], [], [];
    }

    method AddInvoiceItem(item: InvoiceItem)
      requires Valid()
      modifies this
      ensures Valid() && log == old(log) + [Attempt(Line(item), true)]
      ensures items == old(items) + [item] && finalized == old(finalized)
    {
      LogExtend(log, Attempt(Line(item), true));
      items := items + [item];
      log := log + [Attempt(Line(item), true)];
    }

    method FinalizeInvoice(tenantID: string, period: Period)
      requires Valid()
      modifies this
      ensures Valid() && log == old(log) + [Attempt(Close(tenantID, period), true)]
      ensures finalized == old(finalized) + [(tenantID, period)] && items == old(items)
    {
      LogExtend(log, Attempt(Close(tenantID, period), true));
      finalized := finalized + [(tenantID, period)];
      log := log + [Attempt(Close(tenantID, period), true)];
    }
  }

  /** The accepted lines. */
  function LinesIn(log: seq<Attempt>): seq<InvoiceItem> {
    if log == [] then []
    else
      var a := log[|log| - 1];
      LinesIn(log[..|log| - 1]) + if a.accepted && a.call.Line? then [a.call.item] else []
  }

  /** The closings that succeeded. */
  function ClosesIn(log: seq<Attempt>): seq<(string, Period)> {
    if log == [] then []
    else
      var a := log[|log| - 1];
      ClosesIn(log[..|log| - 1]) + if a.accepted && a.call.Close? then [(a.call.tenantID, a.call.period)] else []
  }

  lemma LogExtend(log: seq<Attempt>, a: Attempt)
    ensures LinesIn(log + [a]) == LinesIn(log) + if a.accepted && a.call.Line? then [a.call.item] else []
    ensures ClosesIn(log + [a]) == ClosesIn(log) + if a.accepted && a.call.Close? then [(a.call.tenantID, a.call.period)] else []
  {
  }

  // ---------------------------------------------------------------- Stripe

  /** What becomes of a request: the answer to a lost one never arrives, but it has been carried out. */
  datatype Answer = Succeeded | Rejected | Lost

  /** A line item of a customer, and an invoice, which is a draft until it is finalized. */
  datatype Posting = Posting(customer: string, cents: int, tenantID: string, kind: string, period: Period)
  datatype Invoice = Invoice(customer: string, tenantID: string, period: Period, final: bool)

  /** What Stripe knows and does, as far as it is fixed from outside: which customer a tenant is (none when
      the lookup fails, "" when the tenant is not on Stripe yet), and how it answers: a line item or the creation
      of an invoice, and the request to finalize the invoice created. */
  datatype Stripe = Stripe(customer: string -> Option<string>, answer: Call -> Answer, finalizing: Call -> Answer) {

    /** Calls made for a tenant that is not on Stripe and lines below a cent are dropped without a request. */
    predicate Requests(c: Call) {
      var customer := customer(TenantOf(c));
      customer.Some? && customer.value != "" && (c.Line? ==> CentsOf(c.item) > 0)
    }

    predicate Refuses(c: Call) {
      || customer(TenantOf(c)).None?
      || (Requests(c) && !(answer(c).Succeeded? && (c.Close? ==> finalizing(c).Succeeded?)))
    }

    function PostingOf(c: Call): (postings: seq<Posting>) {
      if c.Line? && Requests(c) && !answer(c).Rejected? then
        [Posting(customer(c.item.tenantID).value, CentsOf(c.item), c.item.tenantID, c.item.kind, c.item.period)]
      else []
    }

    function PostingsOf(log: seq<Attempt>): seq<Posting> {
      if log == [] then [] else PostingsOf(log[..|log| - 1]) + PostingOf(log[|log| - 1].call)
    }

    function InvoiceOf(c: Call): seq<Invoice> {
      if c.Close? && Requests(c) && !answer(c).Rejected? then
        [Invoice(customer(c.tenantID).value, c.tenantID, c.period, answer(c).Succeeded? && !finalizing(c).Rejected?)]
      else []
    }

    function InvoicesOf(log: seq<Attempt>): seq<Invoice> {
      if log == [] then [] else InvoicesOf(log[..|log| - 1]) + InvoiceOf(log[|log| - 1].call)
    }

    lemma PostingsExtend(log: seq<Attempt>, a: Attempt)
      ensures PostingsOf(log + [a]) == PostingsOf(log) + PostingOf(a.call)
      ensures InvoicesOf(log + [a]) == InvoicesOf(log) + InvoiceOf(a.call)
    {
    }

    /** Whatever Stripe is sent goes to the customer that the tenant is, and is a line of the log in whole cents. */
    lemma {:induction false} PostedToCustomer(log: seq<Attempt>, p: Posting) returns (a: Attempt)
      requires p in PostingsOf(log)
      ensures customer(p.tenantID) == Some(p.customer) && p.customer != "" && p.cents > 0
      ensures a in log && a.call.Line? && (a.call.item.tenantID, a.call.item.kind, a.call.item.period) == (p.tenantID, p.kind, p.period)
      ensures var usd := a.call.item.quantity * a.call.item.unitPriceUSD; p.cents as real <= usd * 100.0 < p.cents as real + 1.0
    {
      var n := |log| - 1;
      if p in PostingsOf(log[..n]) {
        a := PostedToCustomer(log[..n], p);
      } else {
        a := log[n];
      }
    }

    /** And so are its invoices the tenant's, for periods that the log closes; final ones were created. */
    lemma {:induction false} InvoicedToCustomer(log: seq<Attempt>, v: Invoice) returns (a: Attempt)
      requires v in InvoicesOf(log)
      ensures customer(v.tenantID) == Some(v.customer) && v.customer != ""
      ensures a in log && a.call == Close(v.tenantID, v.period)
      ensures !Refuses(a.call) ==> v.final
    {
      var n := |log| - 1;
      if v in InvoicesOf(log[..n]) {
        a := InvoicedToCustomer(log[..n], v);
      } else {
        a := log[n];
      }
    }
  }

  class StripeInvoicer {
    const stripe: Stripe
    /** The line items Stripe has been sent, and the invoices it has been asked for. */
    var posted: seq<Posting>
    var invoices: seq<Invoice>
    ghost var log: seq<Attempt>

    ghost predicate Valid()
      reads this
    {
      posted == stripe.PostingsOf(log) && invoices == stripe.InvoicesOf(log)
    }

    constructor (stripe: Stripe)
      ensures Valid() && this.stripe == stripe && log == []
    {
      this.stripe, posted, invoices, log := stripe, [], [], [];
    }

    method AddInvoiceItem(item: InvoiceItem) returns (ok: bool)
      requires Valid()
      modifies this
      ensures Valid() && ok == !stripe.Refuses(Line(item))
      ensures log == old(log) + [Attempt(Line(item), ok)] && invoices == old(invoices)
      ensures var customer, answer := stripe.customer(item.tenantID), stripe.answer(Line(item));
              if customer.Some? && customer.value != "" && item.quantity * item.unitPriceUSD * 100.0 >= 1.0 then
                && ok == answer.Succeeded?
                && if answer.Rejected? then posted == old(posted)
                   else posted == old(posted) + [Posting(customer.value, CentsOf(item), item.tenantID, item.kind, item.period)]
              else ok == customer.Some? && posted == old(posted)
    {
      ghost var before := posted;
      var customer := stripe.customer(item.tenantID);
      ok := customer.Some?;
      // A tenant that is not on Stripe yet is skipped, and so is a line of no cents.
      if customer.Some? && customer.value != "" {
        var totalUSD := item.quantity * item.unitPriceUSD;
        var cents := Truncated(totalUSD * 100.0);
        assert cents == CentsOf(item);
        if cents > 0 {
          var answer := stripe.answer(Line(item));
          ok := answer.Succeeded?;
          if !answer.Rejected? {
            posted := posted + [Posting(customer.value, cents, item.tenantID, item.kind, item.period)];
          }
        }
      }
      assert posted == before + stripe.PostingOf(Line(item));
      stripe.PostingsExtend(log, Attempt(Line(item), ok));
      log := log + [Attempt(Line(item), ok)];
    }

    /** Creates the invoice and then finalizes it. */
    method FinalizeInvoice(tenantID: string, period: Period) returns (ok: bool)
      requires Valid()
      modifies this
      ensures Valid() && ok == !stripe.Refuses(Close(tenantID, period))
      ensures log == old(log) + [Attempt(Close(tenantID, period), ok)] && posted == old(posted)
      ensures var customer, c := stripe.customer(tenantID), Close(tenantID, period);
              if customer.Some? && customer.value != "" then
                && ok == (stripe.answer(c).Succeeded? && stripe.finalizing(c).Succeeded?)
                && if stripe.answer(c).Rejected? then invoices == old(invoices)
                   else exists final :: && invoices == old(invoices) + [Invoice(customer.value, tenantID, period, final)]
                                        && (ok ==> final) && (final ==> stripe.answer(c).Succeeded?)
              else ok == customer.Some? && invoices == old(invoices)
    {
      ghost var before := invoices;
      var customer, c := stripe.customer(tenantID), Close(tenantID, period);
      ok := customer.Some?;
      if customer.Some? && customer.value != "" {
        ok := stripe.answer(c).Succeeded?;
        var final := false;
        if ok {
          ok := stripe.finalizing(c).Succeeded?;
          final := !stripe.finalizing(c).Rejected?;
        }
        if !stripe.answer(c).Rejected? {
          invoices := invoices + [Invoice(customer.value, tenantID, period, final)];
        }
      }
      assert invoices == before + stripe.InvoiceOf(c);
      stripe.PostingsExtend(log, Attempt(c, ok));
      log := log + [Attempt(c, ok)];
    }
  }
}
