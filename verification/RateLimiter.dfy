/** The per-slug limiter: a map of mutable bucket objects behind one lock, proved against the
    whole-history account of TokenBucket. */
module RateLimiter {
  import opened TokenBucket

  /** One call of Allow, in the order the calls get the lock. `now` was read before the lock was asked for. */
  datatype Call = Call(slug: string, now: real)

  /** The readings of one slug's calls. */
  function ClocksOf(trace: seq<Call>, slug: string): seq<real> {
    if trace == [] then []
    else
      var n := |trace| - 1;
      ClocksOf(trace[..n], slug) + if trace[n].slug == slug then [trace[n].now] else []
  }

  lemma ClocksOfExtend(trace: seq<Call>, c: Call, slug: string)
    ensures ClocksOf(trace + [c], slug) == ClocksOf(trace, slug) + if c.slug == slug then [c.now] else []
  {
  }

  /** The bucket a call finds. */
  function Found(l: Limits, states: map<string, Bucket>, c: Call): Bucket {
    if c.slug in states then states[c.slug] else Fresh(l, c.now)
  }

  /** All buckets after a trace, the slugs' calls mixed in any way. */
  function StatesAfter(l: Limits, trace: seq<Call>): map<string, Bucket> {
    if trace == [] then map[]
    else
      var states, c := StatesAfter(l, trace[..|trace| - 1]), trace[|trace| - 1];
      states[c.slug := Admit(l, Found(l, states, c), c.now).0]
  }

  predicate Decision(l: Limits, trace: seq<Call>, c: Call) {
    Admit(l, Found(l, StatesAfter(l, trace), c), c.now).1
  }

  /** First the slug's bucket is there, then the call spends from it. */
  lemma StatesAfterExtend(l: Limits, trace: seq<Call>, c: Call)
    ensures var states := StatesAfter(l, trace);
            var found := states[c.slug := Found(l, states, c)];
            && StatesAfter(l, trace + [c]) == found[c.slug := Admit(l, found[c.slug], c.now).0]
            && Decision(l, trace, c) == Admit(l, found[c.slug], c.now).1
  {
    assert (trace + [c])[..|trace|] == trace;
  }

  /** Slugs are isolated: a bucket exists for exactly the slugs seen, and holds what its own slug's calls,
      and no others, make of a full bucket. */
  lemma {:induction false} SlugsAreIsolated(l: Limits, trace: seq<Call>, slug: string)
    ensures slug in StatesAfter(l, trace) <==> ClocksOf(trace, slug) != []
    ensures slug in StatesAfter(l, trace) ==>
              StatesAfter(l, trace)[slug] == After(l, ClocksOf(trace, slug), |ClocksOf(trace, slug)|)
  {
    if trace != [] {
      var n := |trace| - 1;
      SlugsAreIsolated(l, trace[..n], slug);
      OneMoreCall(l, ClocksOf(trace[..n], slug), trace[n].now);
      assert trace[n].slug != slug ==> ClocksOf(trace, slug) == ClocksOf(trace[..n], slug);
    }
  }

  /** The decision on a call depends on the earlier calls of its own slug alone: it is the one their
      clocks dictate, and it admits the call when every window that would end with it can take one more. */
  lemma DecidedByOwnHistory(l: Limits, trace: seq<Call>, c: Call)
    requires l.Valid()
    ensures var earlier := ClocksOf(trace, c.slug);
            && ClocksOf(trace + [c], c.slug) == earlier + [c.now]
            && Decision(l, trace, c) == Decisions(l, earlier + [c.now])[|earlier|]
            && (Decision(l, trace, c) <==> WindowsPermit(l, earlier, c.now))
  {
    var earlier := ClocksOf(trace, c.slug);
    SlugsAreIsolated(l, trace, c.slug);
    OneMoreCall(l, earlier, c.now);
    AllowedIffWindowsPermit(l, earlier, c.now);
    ClocksOfExtend(trace, c, c.slug);
  }

  /** The limiter's answers to a slug's calls, the slugs' calls mixed in any way. */
  function Answers(l: Limits, trace: seq<Call>, slug: string): seq<bool> {
    if trace == [] then []
    else
      var n := |trace| - 1;
      Answers(l, trace[..n], slug) + if trace[n].slug == slug then [Decision(l, trace[..n], trace[n])] else []
  }

  /** They are those its own readings dictate. */
  lemma {:induction false} AnswersToOwnReadings(l: Limits, trace: seq<Call>, slug: string)
    ensures Answers(l, trace, slug) == Decisions(l, ClocksOf(trace, slug))
  {
    if trace != [] {
      var n := |trace| - 1;
      AnswersToOwnReadings(l, trace[..n], slug);
      if trace[n].slug == slug {
        SlugsAreIsolated(l, trace[..n], slug);
        OneMoreCall(l, ClocksOf(trace[..n], slug), trace[n].now);
        DecisionsExtend(l, ClocksOf(trace[..n], slug), trace[n].now);
      } else {
        assert ClocksOf(trace, slug) == ClocksOf(trace[..n], slug);
      }
    }
  }

  class BucketCell {
    var tokens: real
    var last: real

    constructor (tokens: real, last: real)
      ensures this.tokens == tokens && this.last == last
    {
      this.tokens, this.last := tokens, last;
    }

    function State(): Bucket
      reads this
    {
      Bucket(tokens, last)
    }

    /** The part of Allow that touches one bucket: refill for the time elapsed, cap, consume. */
    method Admit(limits: Limits, now: real) returns (ok: bool)
      modifies this
      ensures (State(), ok) == TokenBucket.Admit(limits, old(State()), now)
    {
      var elapsed := now - last;
      if elapsed > 0.0 {
        tokens := tokens + limits.Earned(elapsed);
        if tokens > limits.burst {
          tokens := limits.burst;
        }
        last := now;
      }
      ok := tokens >= 1.0;
      if ok {
        tokens := tokens - 1.0;
      }
    }
  }

  class TokenBucketLimiter {
    const limits: Limits
    var buckets: map<string, BucketCell>
    ghost var cells: set<BucketCell>
    ghost var trace: seq<Call>

    /** Slugs own distinct bucket objects, which hold `states`. */
    ghost predicate Holds(states: map<string, Bucket>)
      reads this`buckets, this`cells, cells
    {
      && buckets.Keys == states.Keys
      && (forall s | s in buckets :: buckets[s] in cells && buckets[s].State() == states[s])
      && (forall s, t | s in buckets && t in buckets && s != t :: buckets[s] != buckets[t])
    }

    ghost predicate Valid()
      reads this, cells
    {
      limits.Valid() && Holds(StatesAfter(limits, trace))
    }

    constructor (ratePerSec: real, burst: real)
      requires ratePerSec > 0.0 && burst >= 1.0
      ensures Valid() && trace == [] && limits == Limits(ratePerSec, burst)
    {
      limits := Limits(ratePerSec, burst);
      buckets := map[];
      cells, trace := {}, [];
    }

    /** The slug's own bucket object is there from now on. */
    method BucketFor(slug: string, now: real, ghost states: map<string, Bucket>)
      requires Holds(states)
      modifies this`buckets, this`cells
      ensures Holds(states[slug := Found(limits, states, Call(slug, now))]) && fresh(cells - old(cells))
      ensures slug in buckets && (slug in old(buckets) ==> buckets == old(buckets))
    {
      if slug !in buckets {
        var b := new BucketCell(limits.burst, now);
        buckets := buckets[slug := b];
        cells := cells + {b};
      }
    }

    /** The rest of Allow, on the slug's bucket. */
    method Spend(slug: string, now: real, ghost states: map<string, Bucket>) returns (ok: bool)
      requires Holds(states) && slug in buckets
      modifies cells
      ensures Holds(states[slug := TokenBucket.Admit(limits, states[slug], now).0])
      ensures ok == TokenBucket.Admit(limits, states[slug], now).1
    {
      ok := buckets[slug].Admit(limits, now);
    }

    method Allow(slug: string, now: real) returns (ok: bool)
      requires Valid()
      modifies this, cells
      ensures Valid() && fresh(cells - old(cells))
      ensures trace == old(trace) + [Call(slug, now)]
      ensures ok == Decision(limits, old(trace), Call(slug, now))
    {
      ghost var states := StatesAfter(limits, trace);
      BucketFor(slug, now, states);
      ok := Spend(slug, now, states[slug := Found(limits, states, Call(slug, now))]);
      StatesAfterExtend(limits, trace, Call(slug, now));
      trace := trace + [Call(slug, now)];
    }
  }
}
