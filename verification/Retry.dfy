/** common/retry: a bounded number of attempts around an atomic transaction, with growing pauses. */
module Retry {
  import opened Prelude

  const SECOND: int := 1_000_000_000

  function Pow2(n: nat): (p: nat)
    ensures p >= 1
  {
    if n == 0 then 1 else 2 * Pow2(n - 1)
  }

  /** Durations are nanoseconds, as in the code. */
  datatype ExponentialStrategy = ExponentialStrategy(min: int, max: int, maxJitter: int)
  {
    /** The wait without its random part. */
    function Base(attempt: int): int {
      if attempt < 0 then min
      else
        var dur := min + Pow2(attempt) * SECOND;
        if dur > max then max else dur
    }

    /** What the random generator can return. */
    predicate Jitters(jitter: int) {
      if maxJitter > 0 then 0 <= jitter < maxJitter else jitter == 0
    }

    function Duration(attempt: int, jitter: int): int
      requires Jitters(jitter)
    {
      Base(attempt) + jitter
    }
  }

  lemma {:induction false} Pow2Grows(a: nat, b: nat)
    requires a <= b
    ensures Pow2(a) <= Pow2(b)
    decreases b - a
  {
    if a < b {
      Pow2Grows(a, b - 1);
    }
  }

  /** The wait, written out in nanoseconds: the minimum plus 2^attempt seconds, capped, plus the jitter. */
  lemma WaitIs(s: ExponentialStrategy, attempt: int, jitter: int)
    requires s.Jitters(jitter)
    ensures attempt < 0 ==> s.Duration(attempt, jitter) == s.min + jitter
    ensures attempt >= 0 ==> s.Duration(attempt, jitter) == Min(s.min + 1_000_000_000 * Pow2(attempt), s.max) + jitter
    ensures Pow2(0) == 1 && (attempt > 0 ==> Pow2(attempt) == 2 * Pow2(attempt - 1))
    ensures s.maxJitter <= 0 ==> jitter == 0
    ensures s.maxJitter > 0 ==> 0 <= jitter < s.maxJitter
  {
  }

  /** Waits never shrink from one attempt to the next, apart from the jitter, and stay below the cap plus the jitter. */
  lemma BackoffIsMonotoneAndCapped(s: ExponentialStrategy, a: nat, b: nat, jitter: int)
    requires a <= b && s.Jitters(jitter)
    ensures s.Base(a) <= s.Base(b)
    ensures s.Duration(b, jitter) <= s.max + (if s.maxJitter > 0 then s.maxJitter else 0)
  {
    Pow2Grows(a, b);
  }

  /** The strategy of the deposit worker is written in nanoseconds: every pause is its cap, twenty microseconds. */
  lemma WorkerBackoffIsFlat(attempt: nat)
    ensures ExponentialStrategy(1000, 20_000, 250).Base(attempt) == 20_000
  {
    assert Pow2(attempt) * SECOND >= SECOND;
  }

  /** What happens to the i-th attempt: the context is cancelled, or the database fails by itself, or neither. */
  datatype Try = Try(cancelled: bool, fault: bool, jitter: int)

  datatype RetryError = NoAttempts | ContextDone | FailedPermanently(attempts: int)

  /** A database in which a transaction takes effect completely or not at all. */
  class Store<S> {
    var state: S
    ghost var commits: nat

    constructor (state: S)
      ensures this.state == state && commits == 0
    {
      this.state, commits := state, 0;
    }

    /** `target` is the state the body of the transaction arrives at, None when it returns an error. */
    method Transaction(target: Option<S>, fault: bool) returns (ok: bool)
      modifies this
      ensures ok <==> target.Some? && !fault
      ensures state == if ok then target.value else old(state)
      ensures commits == old(commits) + if ok then 1 else 0
    {
      ok := target.Some? && !fault;
      if ok {
        state, commits := target.value, commits + 1;
      }
    }
  }

  /** The attempt goes through. */
  predicate Succeeds<S>(target: Option<S>, t: Try) {
    !t.cancelled && target.Some? && !t.fault
  }

  /** The first attempt that ends the loop early, or the number of attempts. */
  function FirstEnd<S>(target: Option<S>, tries: seq<Try>, from: nat): (k: nat)
    requires from <= |tries|
    ensures from <= k <= |tries|
    ensures forall i | from <= i < k :: !tries[i].cancelled && !Succeeds(target, tries[i])
    ensures k < |tries| ==> tries[k].cancelled || Succeeds(target, tries[k])
    decreases |tries| - from
  {
    if from == |tries| then from
    else if tries[from].cancelled || Succeeds(target, tries[from]) then from
    else FirstEnd(target, tries, from + 1)
  }

  /** The waits before attempts 1, 2, ..., n. */
  function Pauses(s: ExponentialStrategy, tries: seq<Try>, n: nat): (p: seq<int>)
    requires n <= |tries| && forall t | t in tries :: s.Jitters(t.jitter)
    ensures |p| == n
    ensures forall i | 0 <= i < n :: p[i] == s.Duration(i, tries[i].jitter)
  {
    if n == 0 then [] else Pauses(s, tries, n - 1) + [s.Duration(n - 1, tries[n - 1].jitter)]
  }

  function Sum(xs: seq<int>): int {
    if xs == [] then 0 else Sum(xs[..|xs| - 1]) + xs[|xs| - 1]
  }

  lemma {:induction false} PausesAreBounded(s: ExponentialStrategy, tries: seq<Try>, n: nat)
    requires n <= |tries| && forall t | t in tries :: s.Jitters(t.jitter)
    ensures Sum(Pauses(s, tries, n)) <= n * (s.max + (if s.maxJitter > 0 then s.maxJitter else 0))
  {
    if n > 0 {
      PausesAreBounded(s, tries, n - 1);
      BackoffIsMonotoneAndCapped(s, n - 1, n - 1, tries[n - 1].jitter);
      var cap := s.max + (if s.maxJitter > 0 then s.maxJitter else 0);
      assert n * cap == (n - 1) * cap + cap;
      var init := Pauses(s, tries, n - 1);
      assert Pauses(s, tries, n)[..n - 1] == init;
    }
  }

  /**
   * Do around a transaction.  Nil: the transaction took effect exactly once; an error: not at all.  It sleeps once
   * between two attempts: after k failures on the way to an early end, and n - 1 times when all n attempts fail.
   */
  method Do<S>(store: Store<S>, target: Option<S>, maxAttempts: int, strategy: ExponentialStrategy, tries: seq<Try>)
    returns (r: Result<(), RetryError>, slept: seq<int>)
    requires maxAttempts >= 1 ==> |tries| == maxAttempts
    requires forall t | t in tries :: strategy.Jitters(t.jitter)
    modifies store
    ensures store.commits == old(store.commits) + if r.Ok? then 1 else 0
    ensures r.Ok? ==> target.Some? && store.state == target.value
    ensures r.Err? ==> store.state == old(store.state)
    ensures maxAttempts < 1 ==> r == Err(NoAttempts) && slept == []
    ensures maxAttempts >= 1 ==>
              var k := FirstEnd(target, tries, 0);
              && r == (if k == maxAttempts then Err(FailedPermanently(maxAttempts))
                       else if tries[k].cancelled then Err(ContextDone)
                       else Ok(()))
              && slept == Pauses(strategy, tries, if k == maxAttempts then k - 1 else k)
  {
    slept := [];
    if maxAttempts < 1 {
      return Err(NoAttempts), slept;
    }
    var i := 0;
    while i < maxAttempts
      invariant 0 <= i <= maxAttempts
      invariant FirstEnd(target, tries, 0) == FirstEnd(target, tries, i)
      invariant store.state == old(store.state) && store.commits == old(store.commits)
      invariant slept == Pauses(strategy, tries, if i == maxAttempts then i - 1 else i)
    {
      if tries[i].cancelled {
        return Err(ContextDone), slept;
      }
      var ok := store.Transaction(target, tries[i].fault);
      if ok {
        return Ok(()), slept;
      }
      if i != maxAttempts - 1 {
        slept := slept + [strategy.Duration(i, tries[i].jitter)];
      }
      i := i + 1;
    }
    return Err(FailedPermanently(maxAttempts)), slept;
  }

  /** Attempt i is free of faults, and no cancellation comes before it ends. */
  predicate GoesThrough(tries: seq<Try>, i: nat)
    requires i < |tries|
  {
    !tries[i].fault && forall j | 0 <= j <= i :: !tries[j].cancelled
  }

  /** The transaction commits exactly when its body succeeds and some attempt is fault-free before any cancellation. */
  lemma CommitsIff<S>(target: Option<S>, tries: seq<Try>)
    ensures var k := FirstEnd(target, tries, 0);
            k < |tries| && !tries[k].cancelled
            <==> target.Some? && exists i | 0 <= i < |tries| :: GoesThrough(tries, i)
  {
    var k := FirstEnd(target, tries, 0);
    if k < |tries| && !tries[k].cancelled {
      assert GoesThrough(tries, k);
    }
    if target.Some? && exists i | 0 <= i < |tries| :: GoesThrough(tries, i) {
      var i :| 0 <= i < |tries| && GoesThrough(tries, i);
      assert Succeeds(target, tries[i]);
      assert k <= i;
    }
  }
}
