/** Callers race: each reads the clock, then queues for the limiter's lock, so readings can enter the
    critical section late and out of order. This module covers every interleaving of such callers against
    a wall clock and bounds what the limiter lets through in wall-clock time. */
module ClockRace {
  import opened TokenBucket
  import opened RateLimiter

  datatype Event =
    | Elapse(seconds: real)
    | ReadClock(thread: nat)
    | Enter(thread: nat, slug: string)

  /** A call as an outside observer sees it: when its thread read the clock and when it got the lock. */
  datatype TimedCall = TimedCall(slug: string, read: real, entered: real)

  datatype Front = Front(wall: real, holding: map<nat, real>, calls: seq<TimedCall>)

  /** Time only moves forward, and a thread that holds no reading cannot enter. */
  function Step(f: Front, e: Event): Front {
    match e
    case Elapse(d) => if d > 0.0 then f.(wall := f.wall + d) else f
    case ReadClock(t) => f.(holding := f.holding[t := f.wall])
    case Enter(t, slug) =>
      if t in f.holding then
        f.(holding := f.holding - {t}, calls := f.calls + [TimedCall(slug, f.holding[t], f.wall)])
      else f
  }

  function Run(start: real, events: seq<Event>): Front {
    if events == [] then Front(start, map[], [])
    else Step(Run(start, events[..|events| - 1]), events[|events| - 1])
  }

  function CallsOf(calls: seq<TimedCall>, slug: string): seq<TimedCall> {
    if calls == [] then []
    else
      var n := |calls| - 1;
      CallsOf(calls[..n], slug) + if calls[n].slug == slug then [calls[n]] else []
  }

  function Readings(calls: seq<TimedCall>): (r: seq<real>)
    ensures |r| == |calls|
  {
    seq(|calls|, k requires 0 <= k < |calls| => calls[k].read)
  }

  /** The limiter's trace of these calls. */
  function Trace(calls: seq<TimedCall>): seq<Call> {
    seq(|calls|, k requires 0 <= k < |calls| => Call(calls[k].slug, calls[k].read))
  }

  /** What the limiter sees of a slug are the readings of that slug's calls, in the order they got the lock. */
  lemma {:induction false} TraceOfSlug(calls: seq<TimedCall>, slug: string)
    ensures ClocksOf(Trace(calls), slug) == Readings(CallsOf(calls, slug))
    ensures forall k :: 0 <= k < |CallsOf(calls, slug)| ==>
              CallsOf(calls, slug)[k].slug == slug && ClocksOf(Trace(calls), slug)[k] == CallsOf(calls, slug)[k].read
  {
    if calls != [] {
      var n := |calls| - 1;
      TraceOfSlug(calls[..n], slug);
      assert Trace(calls)[..n] == Trace(calls[..n]);
    }
  }

  /** Nothing that other threads or the clock do in between touches a reading. */
  lemma {:induction false} ReadingIsHeld(start: real, before: seq<Event>, t: nat, between: seq<Event>)
    requires forall e :: e in between ==> !(e.ReadClock? && e.thread == t) && !(e.Enter? && e.thread == t)
    ensures var f := Run(start, before + [ReadClock(t)] + between);
            t in f.holding && f.holding[t] == Run(start, before).wall
  {
    var read := before + [ReadClock(t)];
    if between == [] {
      assert read + between == read && read[..|before|] == before;
    } else {
      var n := |between| - 1;
      assert between[n] in between && forall e :: e in between[..n] ==> e in between;
      ReadingIsHeld(start, before, t, between[..n]);
      assert (read + between)[..|read + between| - 1] == read + between[..n];
    }
  }

  /** A thread's call carries the time it read the clock and the time it entered, however long that took. */
  lemma CallIsTimed(start: real, before: seq<Event>, t: nat, between: seq<Event>, slug: string)
    requires forall e :: e in between ==> !(e.ReadClock? && e.thread == t) && !(e.Enter? && e.thread == t)
    ensures var waiting := before + [ReadClock(t)] + between;
            Run(start, waiting + [Enter(t, slug)]).calls
              == Run(start, waiting).calls + [TimedCall(slug, Run(start, before).wall, Run(start, waiting).wall)]
  {
    var waiting := before + [ReadClock(t)] + between;
    ReadingIsHeld(start, before, t, between);
    assert (waiting + [Enter(t, slug)])[..|waiting|] == waiting;
  }

  /** Readings are never later than entries, and entries are in lock order. */
  ghost predicate InLockOrder(calls: seq<TimedCall>) {
    && (forall k :: 0 <= k < |calls| ==> calls[k].read <= calls[k].entered)
    && (forall j, k :: 0 <= j < k < |calls| ==> calls[j].entered <= calls[k].entered)
  }

  lemma {:induction false} RunInLockOrder(start: real, events: seq<Event>)
    ensures var f := Run(start, events);
            && InLockOrder(f.calls)
            && (forall t :: t in f.holding ==> f.holding[t] <= f.wall)
            && (forall k :: 0 <= k < |f.calls| ==> f.calls[k].entered <= f.wall)
  {
    if events != [] {
      RunInLockOrder(start, events[..|events| - 1]);
    }
  }

  lemma {:induction false} CallsOfAmong(calls: seq<TimedCall>, slug: string)
    ensures forall c :: c in CallsOf(calls, slug) ==> c in calls
  {
    if calls != [] {
      CallsOfAmong(calls[..|calls| - 1], slug);
    }
  }

  lemma {:induction false} CallsOfInLockOrder(calls: seq<TimedCall>, slug: string)
    requires InLockOrder(calls)
    ensures InLockOrder(CallsOf(calls, slug))
  {
    if calls != [] {
      var n := |calls| - 1;
      CallsOfInLockOrder(calls[..n], slug);
      var earlier := CallsOf(calls[..n], slug);
      CallsOfAmong(calls[..n], slug);
      forall k | 0 <= k < |earlier|
        ensures earlier[k].entered <= calls[n].entered
      {
        assert earlier[k] in calls[..n];
      }
      ExtendInLockOrder(earlier, calls[n]);
    }
  }

  lemma ExtendInLockOrder(calls: seq<TimedCall>, c: TimedCall)
    requires InLockOrder(calls) && c.read <= c.entered
    requires forall k :: 0 <= k < |calls| ==> calls[k].entered <= c.entered
    ensures InLockOrder(calls + [c])
  {
  }

  /** For every interleaving: of the calls of a slug that entered between the entry of call `i` and that of
      call `j - 1` the limiter lets at most `burst + rate * t` through, where `t` runs from the moment call `i`
      read its clock to the moment call `j - 1` entered. A late reading costs at most its own delay. */
  lemma WallClockBound(l: Limits, start: real, events: seq<Event>, slug: string, mine: seq<TimedCall>,
                       answers: seq<bool>, i: nat, j: nat, t: real)
    requires l.Valid() && mine == CallsOf(Run(start, events).calls, slug) && i < j <= |mine|
    requires answers == Answers(l, Trace(Run(start, events).calls), slug)
    requires t == mine[j - 1].entered - mine[i].read
    ensures |answers| == |mine| && Admitted(answers, i, j) as real <= l.burst + l.ratePerSec * t
  {
    var grown := AnswersWithin(l, start, events, slug, mine, answers, i, j);
    WithinBudget(l, Admitted(answers, i, j), grown, t);
  }

  lemma WithinBudget(l: Limits, count: nat, grown: real, elapsed: real)
    requires l.Valid() && count as real <= Budget(l, grown) && grown <= elapsed
    ensures count as real <= l.burst + l.ratePerSec * elapsed
  {
    BudgetMonotone(l, grown, elapsed);
  }

  /** `last` grows by no more than the time from reading to entry. */
  lemma SpanOfCalls(start: real, events: seq<Event>, slug: string, i: nat, j: nat)
    requires i < j <= |CallsOf(Run(start, events).calls, slug)|
    ensures var mine := CallsOf(Run(start, events).calls, slug);
            Latest(Readings(mine), j) - Latest(Readings(mine), i + 1) <= mine[j - 1].entered - mine[i].read
  {
    RunInLockOrder(start, events);
    CallsOfInLockOrder(Run(start, events).calls, slug);
    LatestEntered(CallsOf(Run(start, events).calls, slug), j);
  }

  /** The answers on the mixed trace keep every window of the slug's readings within what `last` has grown by. */
  lemma AnswersWithin(l: Limits, start: real, events: seq<Event>, slug: string, mine: seq<TimedCall>,
                      answers: seq<bool>, i: nat, j: nat)
    returns (grown: real)
    requires l.Valid() && mine == CallsOf(Run(start, events).calls, slug) && i < j <= |mine|
    requires answers == Answers(l, Trace(Run(start, events).calls), slug)
    ensures |answers| == |mine| && Admitted(answers, i, j) as real <= Budget(l, grown)
    ensures grown <= mine[j - 1].entered - mine[i].read
  {
    grown := Latest(Readings(mine), j) - Latest(Readings(mine), i + 1);
    SpanOfCalls(start, events, slug, i, j);
    AnswersAllowed(l, Run(start, events).calls, slug, i, j);
  }

  lemma AnswersAllowed(l: Limits, calls: seq<TimedCall>, slug: string, i: nat, j: nat)
    requires l.Valid() && i < j <= |CallsOf(calls, slug)|
    ensures var readings, answers := Readings(CallsOf(calls, slug)), Answers(l, Trace(calls), slug);
            |answers| == |readings| && Admitted(answers, i, j) as real <= Allowance(l, readings, i, j)
  {
    var readings := Readings(CallsOf(calls, slug));
    AnswersToOwnReadings(l, Trace(calls), slug);
    TraceOfSlug(calls, slug);
    WindowBound(l, readings);
    assert ConformsAt(l, readings, Decisions(l, readings), j);
  }

  lemma LatestEntered(calls: seq<TimedCall>, j: nat)
    requires 0 < j <= |calls| && InLockOrder(calls)
    ensures Latest(Readings(calls), j) <= calls[j - 1].entered
    ensures forall i :: 0 <= i < j ==> calls[i].read <= Latest(Readings(calls), i + 1)
  {
    var k :| 0 <= k < j && Readings(calls)[k] == Latest(Readings(calls), j);
    assert calls[k].entered <= calls[j - 1].entered;
    forall i | 0 <= i < j
      ensures calls[i].read <= Latest(Readings(calls), i + 1)
    {
      assert Readings(calls)[i] == calls[i].read;
    }
  }
}
