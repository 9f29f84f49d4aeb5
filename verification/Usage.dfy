/** Metered usage: the event store and the totals over stretches of time. */
module Usage {
  import opened Calendar

  datatype UsageEvent = UsageEvent(siteID: string, tenantID: string, kind: string, quantity: real, occurredAt: int)

  predicate Selects(ev: UsageEvent, tenantID: string, period: Period) {
    ev.tenantID == tenantID && period.Holds(ev.occurredAt)
  }

  /** A tenant's events in a period, in the order recorded. */
  function InRange(events: seq<UsageEvent>, tenantID: string, period: Period): seq<UsageEvent> {
    if events == [] then []
    else
      var ev := events[|events| - 1];
      InRange(events[..|events| - 1], tenantID, period) + if Selects(ev, tenantID, period) then [ev] else []
  }

  class MemoryUsageStore {
    var events: seq<UsageEvent>

    constructor ()
      ensures events == []
    {
      events := [];
    }

    /** An event without a time of its own is taken to occur now. */
    method Record(ev: UsageEvent, now: int)
      modifies this
      ensures events == old(events) + [if ev.occurredAt == 0 then ev.(occurredAt := now) else ev]
    {
      var stamped := ev;
      if stamped.occurredAt == 0 {
        stamped := stamped.(occurredAt := now);
      }
      events := events + [stamped];
    }

    method Range(tenantID: string, period: Period) returns (out: seq<UsageEvent>)
      ensures out == InRange(events, tenantID, period)
    {
      out := [];
      for i := 0 to |events|
        invariant out == InRange(events[..i], tenantID, period)
      {
        var ev := events[i];
        assert events[..i + 1][..i] == events[..i];
        if ev.tenantID != tenantID {
          continue;
        }
        if ev.occurredAt < period.start || !(ev.occurredAt < period.end) {
          continue;
        }
        out := out + [ev];
      }
      assert events[..|events|] == events;
    }
  }

  // ---------------------------------------------------------------- totals

  function Total(events: seq<UsageEvent>, kind: string): real {
    if events == [] then 0.0
    else
      var ev := events[|events| - 1];
      Total(events[..|events| - 1], kind) + if ev.kind == kind then ev.quantity else 0.0
  }

  function KindsOf(events: seq<UsageEvent>): set<string> {
    set ev | ev in events :: ev.kind
  }

  /** What a tenant used of a kind in a period. */
  function Used(events: seq<UsageEvent>, tenantID: string, kind: string, period: Period): real {
    Total(InRange(events, tenantID, period), kind)
  }

  lemma UsedExtend(events: seq<UsageEvent>, ev: UsageEvent, tenantID: string, kind: string, period: Period)
    ensures Used(events + [ev], tenantID, kind, period)
         == Used(events, tenantID, kind, period)
            + if Selects(ev, tenantID, period) && ev.kind == kind then ev.quantity else 0.0
  {
    var before := InRange(events, tenantID, period);
    assert (events + [ev])[..|events|] == events;
    assert (before + [ev])[..|before|] == before;
    assert before + [] == before;
  }

  // ---------------------------------------------------------------- billing period by period

  /** What billing one period after another comes to for a kind. */
  function Billed(events: seq<UsageEvent>, tenantID: string, kind: string, periods: seq<Period>): real {
    if periods == [] then 0.0
    else Billed(events, tenantID, kind, periods[..|periods| - 1]) + Used(events, tenantID, kind, periods[|periods| - 1])
  }

  /** How many of the periods an instant is in. */
  function Times(periods: seq<Period>, t: int): nat {
    if periods == [] then 0
    else Times(periods[..|periods| - 1], t) + if periods[|periods| - 1].Holds(t) then 1 else 0
  }

  /** What an event comes to when every period it is in bills it. */
  function Share(ev: UsageEvent, tenantID: string, kind: string, periods: seq<Period>): real {
    if ev.tenantID == tenantID && ev.kind == kind then ev.quantity * Times(periods, ev.occurredAt) as real else 0.0
  }

  function Shares(events: seq<UsageEvent>, tenantID: string, kind: string, periods: seq<Period>): real {
    if events == [] then 0.0
    else Shares(events[..|events| - 1], tenantID, kind, periods) + Share(events[|events| - 1], tenantID, kind, periods)
  }

  lemma ShareExtend(ev: UsageEvent, tenantID: string, kind: string, periods: seq<Period>, p: Period)
    ensures Share(ev, tenantID, kind, periods + [p])
         == Share(ev, tenantID, kind, periods) + if Selects(ev, tenantID, p) && ev.kind == kind then ev.quantity else 0.0
  {
  }

  lemma {:induction false} SharesExtend(events: seq<UsageEvent>, tenantID: string, kind: string, periods: seq<Period>, p: Period)
    ensures Shares(events, tenantID, kind, periods + [p])
         == Shares(events, tenantID, kind, periods) + Used(events, tenantID, kind, p)
  {
    if events != [] {
      var n := |events| - 1;
      SharesExtend(events[..n], tenantID, kind, periods, p);
      ShareExtend(events[n], tenantID, kind, periods, p);
      assert events[..n] + [events[n]] == events;
      UsedExtend(events[..n], events[n], tenantID, kind, p);
    }
  }

  lemma {:induction false} NoPeriods(events: seq<UsageEvent>, tenantID: string, kind: string)
    ensures Shares(events, tenantID, kind, []) == 0.0
  {
    if events != [] {
      NoPeriods(events[..|events| - 1], tenantID, kind);
    }
  }

  /** Billed period by period or event by event, usage comes to the same. */
  lemma {:induction false} BilledByShares(events: seq<UsageEvent>, tenantID: string, kind: string, periods: seq<Period>)
    ensures Billed(events, tenantID, kind, periods) == Shares(events, tenantID, kind, periods)
  {
    if periods == [] {
      NoPeriods(events, tenantID, kind);
    } else {
      var n := |periods| - 1;
      BilledByShares(events, tenantID, kind, periods[..n]);
      SharesExtend(events, tenantID, kind, periods[..n], periods[n]);
      assert periods[..n] + [periods[n]] == periods;
    }
  }

  /** Two periods that meet. */
  lemma {:induction false} UsedSplits(events: seq<UsageEvent>, tenantID: string, kind: string, start: int, mid: int, end: int)
    requires start <= mid <= end
    ensures Used(events, tenantID, kind, Period(start, end))
         == Used(events, tenantID, kind, Period(start, mid)) + Used(events, tenantID, kind, Period(mid, end))
  {
    if events != [] {
      var n := |events| - 1;
      UsedSplits(events[..n], tenantID, kind, start, mid, end);
      UsedSplitsNext(events[..n], events[n], tenantID, kind, start, mid, end);
      assert events[..n] + [events[n]] == events;
    }
  }

  lemma UsedSplitsNext(events: seq<UsageEvent>, ev: UsageEvent, tenantID: string, kind: string, start: int, mid: int, end: int)
    requires start <= mid <= end
    requires Used(events, tenantID, kind, Period(start, end))
          == Used(events, tenantID, kind, Period(start, mid)) + Used(events, tenantID, kind, Period(mid, end))
    ensures Used(events + [ev], tenantID, kind, Period(start, end))
         == Used(events + [ev], tenantID, kind, Period(start, mid)) + Used(events + [ev], tenantID, kind, Period(mid, end))
  {
    UsedExtend(events, ev, tenantID, kind, Period(start, end));
    UsedExtend(events, ev, tenantID, kind, Period(start, mid));
    UsedExtend(events, ev, tenantID, kind, Period(mid, end));
  }

  /** Each period starts where the one before it ends. */
  predicate Contiguous(periods: seq<Period>) {
    && (forall i :: 0 <= i < |periods| ==> periods[i].start <= periods[i].end)
    && (forall i :: 0 < i < |periods| ==> periods[i - 1].end == periods[i].start)
  }

  lemma {:induction false} ContiguousTile(events: seq<UsageEvent>, tenantID: string, kind: string, periods: seq<Period>)
    requires periods != [] && Contiguous(periods)
    ensures periods[0].start <= periods[|periods| - 1].start
    ensures Billed(events, tenantID, kind, periods)
         == Used(events, tenantID, kind, Period(periods[0].start, periods[|periods| - 1].end))
  {
    var n := |periods| - 1;
    if n == 0 {
      assert Billed(events, tenantID, kind, periods[..0]) == 0.0;
    } else {
      ContiguousTile(events, tenantID, kind, periods[..n]);
      UsedSplits(events, tenantID, kind, periods[0].start, periods[n].start, periods[n].end);
    }
  }

  // ---------------------------------------------------------------- the monthly job

  /** The periods billed by runs of the job at the given instants. */
  function Scheduled(runs: seq<int>): (periods: seq<Period>)
    ensures |periods| == |runs|
  {
    if runs == [] then [] else Scheduled(runs[..|runs| - 1]) + [ScheduledPeriod(runs[|runs| - 1])]
  }

  /** How many of the runs are in a month. */
  function RunsIn(runs: seq<int>, m: int): nat {
    if runs == [] then 0
    else RunsIn(runs[..|runs| - 1], m) + if MonthOf(runs[|runs| - 1]) == m then 1 else 0
  }

  /** Whenever the job runs, an event is billed as often as the job runs in the month after it: once if it
      runs once every month, and never twice in one run. */
  lemma {:induction false} BilledByRunsOfNextMonth(runs: seq<int>, t: int)
    ensures Times(Scheduled(runs), t) == RunsIn(runs, MonthOf(t) + 1)
  {
    if runs != [] {
      var n := |runs| - 1;
      BilledByRunsOfNextMonth(runs[..n], t);
      BilledByNextMonthsRuns(runs[n], t);
      assert Scheduled(runs)[..n] == Scheduled(runs[..n]);
    }
  }

  /** Runs in consecutive months. */
  predicate Monthly(runs: seq<int>) {
    forall i :: 0 < i < |runs| ==> MonthOf(runs[i]) == MonthOf(runs[i - 1]) + 1
  }

  lemma BilledNext(events: seq<UsageEvent>, tenantID: string, kind: string, periods: seq<Period>, p: Period, start: int)
    requires Billed(events, tenantID, kind, periods) == Used(events, tenantID, kind, Period(start, p.start))
    requires start <= p.start <= p.end
    ensures Billed(events, tenantID, kind, periods + [p]) == Used(events, tenantID, kind, Period(start, p.end))
  {
    UsedSplits(events, tenantID, kind, start, p.start, p.end);
    assert (periods + [p])[..|periods|] == periods;
  }

  /** Runs in consecutive months, at whatever instants, bill exactly what was used from the start of the
      month before the first to the start of the month of the last. */
  lemma {:induction false} MonthlyJobsTile(events: seq<UsageEvent>, tenantID: string, kind: string, runs: seq<int>)
    requires runs != [] && Monthly(runs)
    ensures MonthOf(runs[0]) <= MonthOf(runs[|runs| - 1])
    ensures Billed(events, tenantID, kind, Scheduled(runs))
         == Used(events, tenantID, kind, Period(FirstOf(MonthOf(runs[0]) - 1), FirstOf(MonthOf(runs[|runs| - 1]))))
  {
    var n := |runs| - 1;
    var first, last := MonthOf(runs[0]) - 1, MonthOf(runs[n]) - 1;
    JobBillsPreviousMonth(runs[n]);
    LaterMonthStarts(last, last + 1);
    if n == 0 {
      assert Scheduled(runs[..0]) == [];
      UsedAtOnce(events, tenantID, kind, FirstOf(first));
      BilledNext(events, tenantID, kind, [], MonthPeriod(last), FirstOf(first));
    } else {
      MonthlyJobsTile(events, tenantID, kind, runs[..n]);
      LaterMonthStarts(first, last);
      BilledNext(events, tenantID, kind, Scheduled(runs[..n]), MonthPeriod(last), FirstOf(first));
    }
  }

  lemma {:induction false} UsedAtOnce(events: seq<UsageEvent>, tenantID: string, kind: string, at: int)
    ensures Used(events, tenantID, kind, Period(at, at)) == 0.0
  {
    if events != [] {
      var n := |events| - 1;
      UsedAtOnce(events[..n], tenantID, kind, at);
      assert events[..n] + [events[n]] == events;
      UsedExtend(events[..n], events[n], tenantID, kind, Period(at, at));
    }
  }
}
