/** The arithmetic of one tenant's token bucket, as a function of the clock readings its calls bring
    into the critical section, and what that arithmetic amounts to over whole call histories.

    `clocks[k]` is the reading call `k` took before it asked for the lock, so `clocks` is in lock order
    and need not be sorted. Time is in seconds and, like tokens, an exact real. */
module TokenBucket {

  datatype Limits = Limits(ratePerSec: real, burst: real) {
    ghost predicate Valid() {
      ratePerSec > 0.0 && burst >= 1.0
    }

    /** What a bucket earns over `elapsed` seconds. */
    function Earned(elapsed: real): real {
      elapsed * ratePerSec
    }
  }

  datatype Bucket = Bucket(tokens: real, last: real)

  /** A tenant's first call finds a full bucket. */
  function Fresh(l: Limits, now: real): Bucket {
    Bucket(l.burst, now)
  }

  function Refill(l: Limits, b: Bucket, now: real): Bucket {
    if now - b.last > 0.0 then
      var filled := b.tokens + l.Earned(now - b.last);
      Bucket(if filled > l.burst then l.burst else filled, now)
    else
      b
  }

  function Take(b: Bucket, admit: bool): Bucket {
    if admit then b.(tokens := b.tokens - 1.0) else b
  }

  /** The decision and the new bucket of one call under the lock. */
  function Admit(l: Limits, b: Bucket, now: real): (Bucket, bool) {
    var r := Refill(l, b, now);
    (Take(r, r.tokens >= 1.0), r.tokens >= 1.0)
  }

  /** The bucket call `k` finds. */
  function Before(l: Limits, clocks: seq<real>, k: nat): Bucket
    requires k < |clocks|
    decreases k, 0
  {
    if k == 0 then Fresh(l, clocks[0]) else After(l, clocks, k)
  }

  /** The bucket after the first `n` calls. */
  function After(l: Limits, clocks: seq<real>, n: nat): Bucket
    requires 0 < n <= |clocks|
    decreases n - 1, 1
  {
    Admit(l, Before(l, clocks, n - 1), clocks[n - 1]).0
  }

  predicate Allowed(l: Limits, clocks: seq<real>, k: nat)
    requires k < |clocks|
  {
    Admit(l, Before(l, clocks, k), clocks[k]).1
  }

  function Decisions(l: Limits, clocks: seq<real>): (d: seq<bool>)
    ensures |d| == |clocks|
    ensures forall k :: 0 <= k < |clocks| ==> d[k] == Allowed(l, clocks, k)
  {
    seq(|clocks|, k requires 0 <= k < |clocks| => Allowed(l, clocks, k))
  }

  /** The latest reading among the first `n` calls. */
  function Latest(clocks: seq<real>, n: nat): (m: real)
    requires 0 < n <= |clocks|
    ensures forall k :: 0 <= k < n ==> clocks[k] <= m
    ensures exists k :: 0 <= k < n && clocks[k] == m
  {
    if n == 1 then clocks[0]
    else
      var m := Latest(clocks, n - 1);
      if clocks[n - 1] > m then clocks[n - 1] else m
  }

  /** How many of the calls `i..j` a choice admits. */
  function Admitted(choice: seq<bool>, i: nat, j: nat): (c: nat)
    requires i <= j <= |choice|
    ensures c <= j - i
  {
    if i == j then 0
    else Admitted(choice, i, j - 1) + if choice[j - 1] then 1 else 0
  }

  /** What a window of so many seconds allows: the burst, plus the rate times the seconds. */
  function Budget(l: Limits, seconds: real): real {
    l.burst + l.ratePerSec * seconds
  }

  /** What the calls from `i` up to `j` may use together: the seconds run from the moment call `i` is taken into
      account to the moment call `j - 1` is. */
  function Allowance(l: Limits, clocks: seq<real>, i: nat, j: nat): real
    requires i < j <= |clocks|
  {
    Budget(l, Latest(clocks, j) - Latest(clocks, i + 1))
  }

  /** Every window that ends with call `j - 1` stays within its allowance. */
  ghost predicate ConformsAt(l: Limits, clocks: seq<real>, choice: seq<bool>, j: nat)
    requires j <= |clocks| == |choice|
  {
    forall i: nat :: i < j ==> Admitted(choice, i, j) as real <= Allowance(l, clocks, i, j)
  }

  /** Every window of the first `n` calls stays within its allowance. */
  ghost predicate Conforms(l: Limits, clocks: seq<real>, choice: seq<bool>, n: nat)
    requires n <= |clocks| == |choice|
  {
    forall j: nat :: 0 < j <= n ==> ConformsAt(l, clocks, choice, j)
  }

  /** The bucket an arbitrary admission choice would leave, with debts allowed. */
  function Level(l: Limits, clocks: seq<real>, choice: seq<bool>, n: nat): Bucket
    requires 0 < n <= |clocks| == |choice|
  {
    var b := if n == 1 then Fresh(l, clocks[0]) else Level(l, clocks, choice, n - 1);
    Take(Refill(l, b, clocks[n - 1]), choice[n - 1])
  }

  /** What window start `i` leaves of its allowance after `n` calls. */
  function Remaining(l: Limits, clocks: seq<real>, choice: seq<bool>, i: nat, n: nat): real
    requires i < n <= |clocks| == |choice|
  {
    Allowance(l, clocks, i, n) - Admitted(choice, i, n) as real
  }

  // ---------------------------------------------------------------- arithmetic

  /** The refill is what the budget grows by. */
  lemma BudgetGrows(l: Limits, before: real, since: real)
    ensures Budget(l, before + since) == Budget(l, before) + l.Earned(since)
  {
    EarnedAdds(l, before, since);
  }

  lemma BudgetMonotone(l: Limits, a: real, b: real)
    requires l.Valid() && a <= b
    ensures Budget(l, a) <= Budget(l, b)
  {
    EarnedMonotone(l, a, b);
  }

  lemma EarnedAdds(l: Limits, a: real, b: real)
    ensures l.Earned(a) + l.Earned(b) == l.Earned(a + b)
  {
  }

  lemma EarnedMonotone(l: Limits, a: real, b: real)
    requires l.Valid() && a <= b
    ensures l.Earned(a) <= l.Earned(b)
  {
    assert (b - a) * l.ratePerSec >= 0.0;
    EarnedAdds(l, a, b - a);
  }

  // ---------------------------------------------------------------- closed form

  /** One call more costs every earlier window what was earned since, less the admission. */
  lemma RemainingStep(l: Limits, clocks: seq<real>, choice: seq<bool>, i: nat, n: nat)
    requires 0 < n && i < n - 1 && n <= |clocks| == |choice|
    ensures Remaining(l, clocks, choice, i, n)
         == Remaining(l, clocks, choice, i, n - 1) + l.Earned(Latest(clocks, n) - Latest(clocks, n - 1))
            - (if choice[n - 1] then 1.0 else 0.0)
  {
    BudgetGrows(l, Latest(clocks, n - 1) - Latest(clocks, i + 1), Latest(clocks, n) - Latest(clocks, n - 1));
  }

  lemma NewestWindow(l: Limits, clocks: seq<real>, choice: seq<bool>, n: nat)
    requires 0 < n <= |clocks| == |choice|
    ensures Remaining(l, clocks, choice, n - 1, n) == l.burst - (if choice[n - 1] then 1.0 else 0.0)
  {
    assert Budget(l, 0.0) == l.burst;
  }

  lemma LevelStep(l: Limits, clocks: seq<real>, choice: seq<bool>, n: nat)
    requires l.Valid() && 1 < n <= |clocks| == |choice|
    requires Level(l, clocks, choice, n - 1).last == Latest(clocks, n - 1)
    ensures Level(l, clocks, choice, n).last == Latest(clocks, n)
    ensures var filled := Level(l, clocks, choice, n - 1).tokens
                          + l.Earned(Latest(clocks, n) - Latest(clocks, n - 1));
            Level(l, clocks, choice, n).tokens
            == (if filled > l.burst then l.burst else filled) - (if choice[n - 1] then 1.0 else 0.0)
  {
    LevelCapped(l, clocks, choice, n - 1);
    assert l.Earned(0.0) == 0.0;
  }

  /** The incremental two-field bucket is the minimum, over all window starts, of what each window
      leaves of its allowance; and `last` is the running maximum of the clocks. */
  lemma {:induction false} LevelIsWindowMinimum(l: Limits, clocks: seq<real>, choice: seq<bool>, n: nat)
    requires l.Valid() && 0 < n <= |clocks| == |choice|
    ensures Level(l, clocks, choice, n).last == Latest(clocks, n)
    ensures forall i: nat :: i < n ==> Level(l, clocks, choice, n).tokens <= Remaining(l, clocks, choice, i, n)
    ensures exists i: nat :: i < n && Level(l, clocks, choice, n).tokens == Remaining(l, clocks, choice, i, n)
  {
    NewestWindow(l, clocks, choice, n);
    if n == 1 {
      assert Level(l, clocks, choice, n).tokens == Remaining(l, clocks, choice, 0, n);
    } else {
      LevelIsWindowMinimum(l, clocks, choice, n - 1);
      LevelStep(l, clocks, choice, n);
      forall i: nat | i < n
        ensures Level(l, clocks, choice, n).tokens <= Remaining(l, clocks, choice, i, n)
      {
        if i < n - 1 {
          RemainingStep(l, clocks, choice, i, n);
        }
      }
      var i: nat :| i < n - 1 && Level(l, clocks, choice, n - 1).tokens == Remaining(l, clocks, choice, i, n - 1);
      RemainingStep(l, clocks, choice, i, n);
      assert Level(l, clocks, choice, n).tokens == Remaining(l, clocks, choice, i, n)
          || Level(l, clocks, choice, n).tokens == Remaining(l, clocks, choice, n - 1, n);
    }
  }

  lemma LevelCapped(l: Limits, clocks: seq<real>, choice: seq<bool>, n: nat)
    requires l.Valid() && 0 < n <= |clocks| == |choice|
    ensures Level(l, clocks, choice, n).tokens <= l.burst
  {
  }

  lemma ConformsAtIffNotInDebt(l: Limits, clocks: seq<real>, choice: seq<bool>, m: nat)
    requires l.Valid() && 0 < m <= |clocks| == |choice|
    ensures ConformsAt(l, clocks, choice, m) <==> Level(l, clocks, choice, m).tokens >= 0.0
  {
    LevelIsWindowMinimum(l, clocks, choice, m);
    var w: nat :| w < m && Level(l, clocks, choice, m).tokens == Remaining(l, clocks, choice, w, m);
    forall i: nat | i < m && Level(l, clocks, choice, m).tokens >= 0.0
      ensures Admitted(choice, i, m) as real <= Allowance(l, clocks, i, m)
    {
      assert Remaining(l, clocks, choice, i, m) >= 0.0;
    }
  }

  /** A choice keeps every window within its allowance exactly when its bucket never goes into debt. */
  lemma ConformsIffNeverInDebt(l: Limits, clocks: seq<real>, choice: seq<bool>, n: nat)
    requires l.Valid() && n <= |clocks| == |choice|
    ensures Conforms(l, clocks, choice, n) <==>
            forall m: nat :: 0 < m <= n ==> Level(l, clocks, choice, m).tokens >= 0.0
  {
    if Conforms(l, clocks, choice, n) {
      forall m: nat | 0 < m <= n
        ensures Level(l, clocks, choice, m).tokens >= 0.0
      {
        assert ConformsAt(l, clocks, choice, m);
        ConformsAtIffNotInDebt(l, clocks, choice, m);
      }
    } else {
      var j: nat :| 0 < j <= n && !ConformsAt(l, clocks, choice, j);
      ConformsAtIffNotInDebt(l, clocks, choice, j);
    }
  }

  /** The limiter's own bucket is the level of the choice it makes. */
  lemma {:induction false} AfterIsLevel(l: Limits, clocks: seq<real>, n: nat)
    requires 0 < n <= |clocks|
    ensures After(l, clocks, n) == Level(l, clocks, Decisions(l, clocks), n)
  {
    if n > 1 {
      AfterIsLevel(l, clocks, n - 1);
    }
  }

  // ---------------------------------------------------------------- the limiter

  /** Tokens stay in [0, burst] and `last` is the running maximum, whatever order the clocks come in. */
  lemma {:induction false} BucketInRange(l: Limits, clocks: seq<real>, n: nat)
    requires l.Valid() && 0 < n <= |clocks|
    ensures 0.0 <= After(l, clocks, n).tokens <= l.burst
    ensures After(l, clocks, n).last == Latest(clocks, n)
  {
    if n > 1 {
      BucketInRange(l, clocks, n - 1);
      EarnedMonotone(l, 0.0, Latest(clocks, n) - Latest(clocks, n - 1));
    }
  }

  /** The closed form for the limiter's own bucket. */
  lemma ClosedForm(l: Limits, clocks: seq<real>, n: nat)
    requires l.Valid() && 0 < n <= |clocks|
    ensures forall i: nat :: i < n ==> After(l, clocks, n).tokens <= Remaining(l, clocks, Decisions(l, clocks), i, n)
    ensures exists i: nat :: i < n && After(l, clocks, n).tokens == Remaining(l, clocks, Decisions(l, clocks), i, n)
  {
    AfterIsLevel(l, clocks, n);
    LevelIsWindowMinimum(l, clocks, Decisions(l, clocks), n);
  }

  /** The admissions in any stretch of lock order are within the burst plus what the growth of `last`
      over the stretch earns. */
  lemma WindowBound(l: Limits, clocks: seq<real>)
    requires l.Valid()
    ensures Conforms(l, clocks, Decisions(l, clocks), |clocks|)
  {
    var d := Decisions(l, clocks);
    forall m: nat | 0 < m <= |clocks|
      ensures Level(l, clocks, d, m).tokens >= 0.0
    {
      AfterIsLevel(l, clocks, m);
      BucketInRange(l, clocks, m);
    }
    ConformsIffNeverInDebt(l, clocks, d, |clocks|);
  }

  /** Every window that would end with a call at `now` can take one more admission. */
  ghost predicate WindowsPermit(l: Limits, clocks: seq<real>, now: real) {
    forall i: nat :: i <= |clocks| ==>
      Admitted(Decisions(l, clocks + [now]), i, |clocks|) as real + 1.0
        <= Allowance(l, clocks + [now], i, |clocks| + 1)
  }

  /** A call is admitted exactly when one more admission keeps every window ending at it within its
      allowance: the decision the whole history dictates, from two remembered numbers. */
  lemma AllowedIffWindowsPermit(l: Limits, clocks: seq<real>, now: real)
    requires l.Valid()
    ensures Allowed(l, clocks + [now], |clocks|) <==> WindowsPermit(l, clocks, now)
  {
    ReadyIsWindowMinimum(l, clocks + [now], |clocks|);
  }

  /** The tokens a call finds after the refill are the least any window ending with it could still spend. */
  lemma ReadyIsWindowMinimum(l: Limits, clocks: seq<real>, k: nat)
    requires l.Valid() && k < |clocks|
    ensures var ready, d := Refill(l, Before(l, clocks, k), clocks[k]).tokens, Decisions(l, clocks);
            && (forall i: nat :: i <= k ==> ready <= Allowance(l, clocks, i, k + 1) - Admitted(d, i, k) as real)
            && (exists i: nat :: i <= k && ready == Allowance(l, clocks, i, k + 1) - Admitted(d, i, k) as real)
  {
    var d := Decisions(l, clocks);
    var ready := Refill(l, Before(l, clocks, k), clocks[k]).tokens;
    var bit := if d[k] then 1.0 else 0.0;
    ClosedForm(l, clocks, k + 1);
    assert After(l, clocks, k + 1).tokens == ready - bit;
    forall i: nat | i <= k
      ensures Remaining(l, clocks, d, i, k + 1)
           == Allowance(l, clocks, i, k + 1) - Admitted(d, i, k) as real - bit
    {
    }
    var w: nat :| w < k + 1 && After(l, clocks, k + 1).tokens == Remaining(l, clocks, d, w, k + 1);
    assert ready == Allowance(l, clocks, w, k + 1) - Admitted(d, w, k) as real;
  }

  /** The first calls of a tenant are admitted as far as the burst goes, at whatever times they come. */
  lemma FirstBurstIsAdmitted(l: Limits, clocks: seq<real>, k: nat)
    requires l.Valid() && k < |clocks| && (k + 1) as real <= l.burst
    ensures Allowed(l, clocks, k)
  {
    if k > 0 {
      BurstLeft(l, clocks, k);
      BucketInRange(l, clocks, k);
      RefillTakesNothing(l, After(l, clocks, k), clocks[k]);
    }
  }

  lemma {:induction false} BurstLeft(l: Limits, clocks: seq<real>, n: nat)
    requires l.Valid() && 0 < n <= |clocks|
    ensures After(l, clocks, n).tokens >= l.burst - n as real
  {
    if n > 1 {
      BurstLeft(l, clocks, n - 1);
      BucketInRange(l, clocks, n - 1);
      RefillTakesNothing(l, After(l, clocks, n - 1), clocks[n - 1]);
    }
  }

  lemma RefillTakesNothing(l: Limits, b: Bucket, now: real)
    requires l.Valid() && b.tokens <= l.burst
    ensures Refill(l, b, now).tokens >= b.tokens
  {
    if now > b.last {
      EarnedMonotone(l, 0.0, now - b.last);
    }
  }

  /** Whatever went before, a call is admitted that comes late enough for the rate to have earned one token. */
  lemma PatientCallIsAdmitted(l: Limits, clocks: seq<real>, now: real, waited: real)
    requires l.Valid() && clocks != [] && waited == now - Latest(clocks, |clocks|) && l.ratePerSec * waited >= 1.0
    ensures Allowed(l, clocks + [now], |clocks|)
  {
    var n := |clocks|;
    BucketInRange(l, clocks, n);
    DecisionsExtend(l, clocks, now);
    WaitIsPositive(l, waited);
    RefillEnough(l, After(l, clocks, n), now, waited);
  }

  lemma WaitIsPositive(l: Limits, waited: real)
    requires l.Valid() && l.ratePerSec * waited >= 1.0
    ensures waited > 0.0
  {
  }

  lemma RefillEnough(l: Limits, b: Bucket, now: real, waited: real)
    requires l.Valid() && b.tokens >= 0.0 && waited == now - b.last > 0.0 && l.ratePerSec * waited >= 1.0
    ensures Refill(l, b, now).tokens >= 1.0
  {
    assert l.Earned(waited) == l.ratePerSec * waited;
  }

  // ---------------------------------------------------------------- optimality

  /** Greedy admission is optimal: on no prefix of any call history is a choice whose windows conform that far
      ahead of the limiter's. */
  lemma GreedyIsOptimal(l: Limits, clocks: seq<real>, choice: seq<bool>, n: nat)
    requires l.Valid() && n <= |clocks| == |choice|
    requires Conforms(l, clocks, choice, n)
    ensures Admitted(choice, 0, n) <= Admitted(Decisions(l, clocks), 0, n)
  {
    ConformsIffNeverInDebt(l, clocks, choice, n);
    if n > 0 {
      GreedyDominates(l, clocks, choice, n);
    }
  }

  /** The reason: a rival's bucket is never ahead of the limiter's by more than its admissions are behind. */
  lemma {:induction false} GreedyDominates(l: Limits, clocks: seq<real>, choice: seq<bool>, n: nat)
    requires l.Valid() && 0 < n <= |clocks| == |choice|
    requires forall m: nat :: 0 < m <= n ==> Level(l, clocks, choice, m).tokens >= 0.0
    ensures Admitted(choice, 0, n) <= Admitted(Decisions(l, clocks), 0, n)
    ensures Level(l, clocks, choice, n).last == After(l, clocks, n).last
    ensures Level(l, clocks, choice, n).tokens - After(l, clocks, n).tokens
            <= (Admitted(Decisions(l, clocks), 0, n) - Admitted(choice, 0, n)) as real
  {
    var d := Decisions(l, clocks);
    if n > 1 {
      GreedyDominates(l, clocks, choice, n - 1);
      assert Level(l, clocks, choice, n).tokens >= 0.0;
    } else {
      assert Admitted(choice, 0, 0) == 0 == Admitted(d, 0, 0);
      assert Level(l, clocks, choice, 1).tokens >= 0.0;
    }
  }

  // ---------------------------------------------------------------- denied calls

  /** The calls of `s` that `keep` marks. */
  function Select<T>(s: seq<T>, keep: seq<bool>): (r: seq<T>)
    requires |s| == |keep|
    ensures |r| <= |s|
  {
    if s == [] then []
    else
      var n := |s| - 1;
      Select(s[..n], keep[..n]) + if keep[n] then [s[n]] else []
  }

  /** A history and a prefix of it decide alike. */
  lemma {:induction false} PrefixDecides(l: Limits, clocks: seq<real>, more: seq<real>, n: nat)
    requires 0 < n <= |clocks| && clocks <= more
    ensures After(l, clocks, n) == After(l, more, n)
    ensures Allowed(l, clocks, n - 1) == Allowed(l, more, n - 1)
  {
    if n > 1 {
      PrefixDecides(l, clocks, more, n - 1);
    }
  }

  lemma DecisionsOfPrefix(l: Limits, clocks: seq<real>, n: nat)
    requires n <= |clocks|
    ensures Decisions(l, clocks[..n]) == Decisions(l, clocks)[..n]
  {
    forall k | 0 <= k < n
      ensures Allowed(l, clocks[..n], k) == Allowed(l, clocks, k)
    {
      PrefixDecides(l, clocks[..n], clocks, k + 1);
    }
  }

  /** `b` is a bucket that missed only calls that would have been denied, `full` one that saw them. */
  ghost predicate Lags(l: Limits, b: Bucket, full: Bucket) {
    && b.tokens <= l.burst
    && b.last <= full.last
    && full.tokens == (if b.tokens + l.Earned(full.last - b.last) > l.burst then l.burst
                       else b.tokens + l.Earned(full.last - b.last))
    && (b.last < full.last ==> full.tokens < 1.0)
  }

  lemma LagsStep(l: Limits, b: Bucket, full: Bucket, now: real)
    requires l.Valid() && Lags(l, b, full)
    ensures Admit(l, b, now).1 == Admit(l, full, now).1
    ensures Lags(l, Admit(l, b, now).0, Admit(l, full, now).0)
    ensures !Admit(l, full, now).1 ==> Lags(l, b, Admit(l, full, now).0)
  {
    if now > full.last {
      EarnedBetween(l, b.last, full.last, now);
      CaughtUp(l, Admit(l, full, now).0);
    } else if now > b.last {
      EarnedBetween(l, b.last, now, full.last);
    } else if b.last < full.last {
      EarnedBetween(l, b.last, b.last, full.last);
    } else {
      EarnedBetween(l, b.last, b.last, b.last);
      CaughtUp(l, Admit(l, full, now).0);
    }
  }

  lemma EarnedBetween(l: Limits, from: real, via: real, to: real)
    requires l.Valid() && from <= via <= to
    ensures l.Earned(via - from) + l.Earned(to - via) == l.Earned(to - from)
    ensures l.Earned(via - from) >= 0.0 && l.Earned(to - via) >= 0.0
    ensures via == from ==> l.Earned(via - from) == 0.0
  {
    EarnedMonotone(l, 0.0, via - from);
    EarnedMonotone(l, 0.0, to - via);
    EarnedAdds(l, via - from, to - via);
  }

  lemma CaughtUp(l: Limits, b: Bucket)
    requires b.tokens <= l.burst
    ensures Lags(l, b, b)
  {
    assert l.Earned(0.0) == 0.0;
  }

  /** Adding one call to a history adds its decision. */
  lemma DecisionsExtend(l: Limits, clocks: seq<real>, now: real)
    ensures Decisions(l, clocks + [now]) == Decisions(l, clocks) + [Allowed(l, clocks + [now], |clocks|)]
    ensures Before(l, clocks + [now], |clocks|)
         == if clocks == [] then Fresh(l, now) else After(l, clocks, |clocks|)
  {
    var more := clocks + [now];
    DecisionsOfPrefix(l, more, |clocks|);
    assert more[..|clocks|] == clocks;
    if clocks != [] {
      PrefixDecides(l, clocks, more, |clocks|);
    }
  }

  lemma SelectExtend<T>(s: seq<T>, keep: seq<bool>, x: T, k: bool)
    requires |s| == |keep|
    ensures Select(s + [x], keep + [k]) == Select(s, keep) + if k then [x] else []
  {
  }

  /** Only denied calls are dropped. */
  ghost predicate DropsOnlyDenied(l: Limits, clocks: seq<real>, keep: seq<bool>) {
    |keep| == |clocks| && forall k :: 0 <= k < |clocks| && !keep[k] ==> !Allowed(l, clocks, k)
  }

  /** What dropping leaves: the kept decisions, and a bucket that differs only in what it missed. */
  ghost predicate Transparent(l: Limits, clocks: seq<real>, keep: seq<bool>)
    requires |keep| == |clocks|
  {
    var kept := Select(clocks, keep);
    && Decisions(l, kept) == Select(Decisions(l, clocks), keep)
    && (clocks != [] ==> kept != [] && Lags(l, After(l, kept, |kept|), After(l, clocks, |clocks|)))
  }

  /** One call more, from the bucket the earlier calls leave. */
  lemma OneMoreCall(l: Limits, clocks: seq<real>, now: real)
    ensures var found := if clocks == [] then Fresh(l, now) else After(l, clocks, |clocks|);
            && After(l, clocks + [now], |clocks| + 1) == Admit(l, found, now).0
            && Decisions(l, clocks + [now])[|clocks|] == Admit(l, found, now).1
  {
    DecisionsExtend(l, clocks, now);
  }

  /** Denied calls leave no trace: drop any of them from a history and every other decision stands. */
  lemma {:induction false} DeniedCallsAreTransparent(l: Limits, clocks: seq<real>, keep: seq<bool>)
    requires l.Valid() && DropsOnlyDenied(l, clocks, keep)
    ensures Decisions(l, Select(clocks, keep)) == Select(Decisions(l, clocks), keep)
    ensures Transparent(l, clocks, keep)
    decreases |clocks|
  {
    if clocks != [] {
      var n := |clocks| - 1;
      assert clocks == clocks[..n] + [clocks[n]] && keep == keep[..n] + [keep[n]];
      DecisionsOfPrefix(l, clocks, n);
      assert forall k :: 0 <= k < n ==> Decisions(l, clocks[..n])[k] == Decisions(l, clocks)[k];
      DeniedCallsAreTransparent(l, clocks[..n], keep[..n]);
      TransparentStep(l, clocks[..n], keep[..n], clocks[n], keep[n]);
    }
  }

  lemma TransparentStep(l: Limits, clocks: seq<real>, keep: seq<bool>, now: real, k: bool)
    requires l.Valid() && |keep| == |clocks| && Transparent(l, clocks, keep)
    requires k || !Allowed(l, clocks + [now], |clocks|)
    ensures Transparent(l, clocks + [now], keep + [k])
  {
    if k {
      KeptIsTransparent(l, clocks, keep, now);
    } else {
      DroppedIsTransparent(l, clocks, keep, now);
    }
  }

  lemma KeptIsTransparent(l: Limits, clocks: seq<real>, keep: seq<bool>, now: real)
    requires l.Valid() && |keep| == |clocks| && Transparent(l, clocks, keep)
    ensures Transparent(l, clocks + [now], keep + [true])
  {
    var kept := Select(clocks, keep);
    LagsOn(l, clocks, kept, now);
    DecisionsExtend(l, clocks, now);
    DecisionsExtend(l, kept, now);
    SelectExtend(clocks, keep, now, true);
    SelectExtend(Decisions(l, clocks), keep, Allowed(l, clocks + [now], |clocks|), true);
  }

  lemma DroppedIsTransparent(l: Limits, clocks: seq<real>, keep: seq<bool>, now: real)
    requires l.Valid() && |keep| == |clocks| && Transparent(l, clocks, keep)
    requires !Allowed(l, clocks + [now], |clocks|)
    ensures Transparent(l, clocks + [now], keep + [false])
  {
    var kept := Select(clocks, keep);
    LagsOn(l, clocks, kept, now);
    DecisionsExtend(l, clocks, now);
    SelectExtend(clocks, keep, now, false);
    SelectExtend(Decisions(l, clocks), keep, false, false);
    assert kept + [] == kept && Decisions(l, kept) + [] == Decisions(l, kept);
  }

  /** One call more on two histories of which the shorter only misses denied calls. */
  lemma LagsOn(l: Limits, clocks: seq<real>, kept: seq<real>, now: real)
    requires l.Valid() && (clocks == [] ==> kept == [])
    requires clocks != [] ==> kept != [] && Lags(l, After(l, kept, |kept|), After(l, clocks, |clocks|))
    ensures var more, full := kept + [now], clocks + [now];
            && Allowed(l, more, |kept|) == Allowed(l, full, |clocks|)
            && Lags(l, After(l, more, |more|), After(l, full, |full|))
            && (!Allowed(l, full, |clocks|) ==> clocks != [] && Lags(l, After(l, kept, |kept|), After(l, full, |full|)))
  {
    OneMoreCall(l, clocks, now);
    OneMoreCall(l, kept, now);
    if clocks != [] {
      LagsStep(l, After(l, kept, |kept|), After(l, clocks, |clocks|), now);
    }
  }
}
