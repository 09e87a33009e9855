/**
 * The generic retry executor (pkg/retry/retry.go).
 *
 * The function being retried becomes `fn: Attempt -> Result<T>`, the outcome
 * of its call in each attempt. The caller's context becomes `Context`: whether
 * it is already done when an attempt starts, whether it becomes done while
 * the executor waits between attempts, and the error `ctx.Err()` then
 * reports. Time is not modelled; the waits appear in the trace as `Wait` steps
 * with the duration the strategy chose.
 */
module Retry {
  import opened Errors
  import opened Backoff

  const DefaultRetries: int := 3
  const DefaultBase: int := 500 * Millisecond

  /** `retry.Options`: a nil strategy or predicate is `None`. */
  datatype Options = Options(maxRetries: int, strategy: Option<Strategy>, shouldRetry: Option<Error -> bool>)

  /** The caller's `context.Context`, seen at the points where `Do` looks at it. */
  datatype Context = Context(doneBefore: Attempt -> bool, doneDuringWait: Attempt -> bool, err: Error)

  /** What `Do` does, in order: calls of `fn` and waits between them. */
  datatype Step = Call(attempt: Attempt) | Wait(duration: int)

  datatype Outcome<T> = Outcome(result: Result<T>, trace: seq<Step>)

  /** A context that is never cancelled (`context.Background()`). */
  function Background(): (ctx: Context)
    ensures forall a: Attempt :: !ctx.doneBefore(a) && !ctx.doneDuringWait(a)
  {
    Context((a: Attempt) => false, (a: Attempt) => false, Canceled)
  }

  /** `retrier[T]`: the options after `New` filled in the defaults. */
  datatype Retrier = Retrier(maxRetries: int, strategy: Strategy, shouldRetry: Error -> bool)
  {
    predicate Valid() {
      maxRetries >= 1
    }

    /**
     * `Do`: at most `maxRetries` attempts. Each attempt first gives up with
     * the context's error if the context is done, then calls `fn`; a success
     * is returned at once, an error the predicate refuses is returned at once,
     * the error of the last attempt is returned, and otherwise the executor
     * waits `strategy(attempt)` unless the context ends the wait.
     */
    method Do<T>(ctx: Context, fn: Attempt -> Result<T>) returns (r: Result<T>, trace: seq<Step>)
      requires Valid()
      ensures Outcome(r, trace) == Run(maxRetries, strategy, shouldRetry, ctx, fn, 1, [])
    {
      var attempt: Attempt := 1;
      var err: Error;
      trace := [];
      while true
        invariant attempt <= maxRetries
        invariant Run(maxRetries, strategy, shouldRetry, ctx, fn, 1, []) == Run(maxRetries, strategy, shouldRetry, ctx, fn, attempt, trace)
        decreases maxRetries - attempt
      {
        if ctx.doneBefore(attempt) {
          return Err(ctx.err), trace;
        }
        var out := fn(attempt);
        trace := trace + [Call(attempt)];
        if out.Ok? {
          return Ok(out.value), trace;
        }
        err := out.error;
        if !shouldRetry(err) {
          return Err(err), trace;
        }
        if attempt == maxRetries {
          break;
        }
        trace := trace + [Wait(strategy(attempt))];
        if ctx.doneDuringWait(attempt) {
          return Err(ctx.err), trace;
        }
        attempt := attempt + 1;
      }
      r := Err(err);
    }

    /** What `Do` does with this retrier. */
    function Spec<T>(ctx: Context, fn: Attempt -> Result<T>): Outcome<T>
      requires Valid()
    {
      Run(maxRetries, strategy, shouldRetry, ctx, fn, 1, [])
    }
  }

  /** `New`: a non-positive retry count becomes 3, a missing strategy exponential backoff from 500ms, a missing predicate "retry every error". */
  function New(opts: Options): (r: Retrier)
    ensures r.Valid()
    ensures r.maxRetries == (if opts.maxRetries <= 0 then DefaultRetries else opts.maxRetries)
    ensures opts.strategy.Some? ==> r.strategy == opts.strategy.value
    ensures opts.strategy.None? ==> forall a: Attempt :: r.strategy(a) == ExponentialDelay(DefaultBase, a)
    ensures opts.shouldRetry.Some? ==> r.shouldRetry == opts.shouldRetry.value
    ensures opts.shouldRetry.None? ==> forall e: Error :: r.shouldRetry(e)
  {
    Retrier(
      if opts.maxRetries <= 0 then DefaultRetries else opts.maxRetries,
      if opts.strategy.Some? then opts.strategy.value else ExponentialBackoff(DefaultBase),
      if opts.shouldRetry.Some? then opts.shouldRetry.value else (e: Error) => true)
  }

  /**
   * The behaviour of `Do` from `attempt` on, `steps` being what it already
   * did: the result it returns and everything it did.
   */
  function Run<T>(maxRetries: int, strategy: Strategy, shouldRetry: Error -> bool, ctx: Context,
                  fn: Attempt -> Result<T>, attempt: Attempt, steps: seq<Step>): Outcome<T>
    requires attempt <= maxRetries
    decreases maxRetries - attempt
  {
    if ctx.doneBefore(attempt) then Outcome(Err(ctx.err), steps)
    else
      var called := steps + [Call(attempt)];
      if fn(attempt).Ok? then Outcome(fn(attempt), called)
      else if !shouldRetry(fn(attempt).error) || attempt == maxRetries then Outcome(fn(attempt), called)
      else if ctx.doneDuringWait(attempt) then Outcome(Err(ctx.err), called + [Wait(strategy(attempt))])
      else Run(maxRetries, strategy, shouldRetry, ctx, fn, attempt + 1, called + [Wait(strategy(attempt))])
  }

  /** The steps of a run that reaches attempt `last` without stopping earlier: a call then a wait for each earlier attempt. */
  function Schedule(strategy: Strategy, from: Attempt, last: Attempt): seq<Step>
    requires from <= last
    decreases last - from
  {
    if from == last then [] else [Call(from), Wait(strategy(from))] + Schedule(strategy, from + 1, last)
  }

  /** Number of `Call` steps of a trace: how many times `fn` ran. */
  function Calls(trace: seq<Step>): nat
  {
    if trace == [] then 0 else (if trace[0].Call? then 1 else 0) + Calls(trace[1..])
  }

  lemma {:induction false} CallsAppend(s: seq<Step>, t: seq<Step>)
    ensures Calls(s + t) == Calls(s) + Calls(t)
  {
    if s != [] {
      assert (s + t)[1..] == s[1..] + t;
      CallsAppend(s[1..], t);
    } else {
      assert s + t == t;
    }
  }

  /**
   * A run only adds to what was done before, calls `fn` at most once per
   * remaining attempt, and only for attempts from `attempt` up to the retry
   * count.
   */
  lemma {:induction false} RunBounded<T>(rt: Retrier, ctx: Context, fn: Attempt -> Result<T>, attempt: Attempt, steps: seq<Step>)
    requires attempt <= rt.maxRetries
    ensures var t := Run(rt.maxRetries, rt.strategy, rt.shouldRetry, ctx, fn, attempt, steps).trace;
      steps <= t
      && Calls(t) <= Calls(steps) + rt.maxRetries - attempt + 1
      && forall i :: |steps| <= i < |t| && t[i].Call? ==> attempt <= t[i].attempt <= rt.maxRetries
    decreases rt.maxRetries - attempt
  {
    if !ctx.doneBefore(attempt) {
      var called := steps + [Call(attempt)];
      var waited := called + [Wait(rt.strategy(attempt))];
      CallsAppend(steps, [Call(attempt)]);
      CallsAppend(called, [Wait(rt.strategy(attempt))]);
      assert Calls([Wait(rt.strategy(attempt))]) == 0;
      if fn(attempt).Err? && rt.shouldRetry(fn(attempt).error) && attempt < rt.maxRetries && !ctx.doneDuringWait(attempt) {
        RunBounded(rt, ctx, fn, attempt + 1, waited);
      }
    }
  }

  /** A function that succeeds at once is called exactly once and its value is returned. */
  lemma SuccessOnFirstTry<T>(rt: Retrier, fn: Attempt -> Result<T>, v: T)
    requires rt.Valid() && fn(1) == Ok(v)
    ensures rt.Spec(Background(), fn) == Outcome(Ok(v), [Call(1)])
  {
  }

  /**
   * With a context that stays live, a function that fails until attempt `k`
   * and then succeeds is called at every attempt up to `k`, with the
   * strategy's wait after each failure, and its value is returned, provided
   * every failure is one the predicate retries and `k` is within the retry
   * count.
   */
  lemma {:induction false} EventuallySucceeds<T>(rt: Retrier, fn: Attempt -> Result<T>, from: Attempt, k: Attempt, v: T, steps: seq<Step>)
    requires from <= k <= rt.maxRetries
    requires fn(k) == Ok(v)
    requires forall a: Attempt :: from <= a < k ==> fn(a).Err? && rt.shouldRetry(fn(a).error)
    ensures Run(rt.maxRetries, rt.strategy, rt.shouldRetry, Background(), fn, from, steps)
         == Outcome(Ok(v), steps + Schedule(rt.strategy, from, k) + [Call(k)])
    decreases k - from
  {
    if from < k {
      var head := [Call(from), Wait(rt.strategy(from))];
      EventuallySucceeds(rt, fn, from + 1, k, v, steps + [Call(from)] + [Wait(rt.strategy(from))]);
      assert steps + [Call(from)] + [Wait(rt.strategy(from))] + Schedule(rt.strategy, from + 1, k) + [Call(k)]
          == steps + Schedule(rt.strategy, from, k) + [Call(k)];
    }
  }

  /**
   * With a context that stays live, a function that always fails with
   * retryable errors is called at every attempt up to the retry count and
   * the error of the last call is returned.
   */
  lemma {:induction false} AlwaysFails<T>(rt: Retrier, fn: Attempt -> Result<T>, from: Attempt, steps: seq<Step>)
    requires from <= rt.maxRetries
    requires forall a: Attempt :: fn(a).Err? && rt.shouldRetry(fn(a).error)
    ensures Run(rt.maxRetries, rt.strategy, rt.shouldRetry, Background(), fn, from, steps)
         == Outcome(fn(rt.maxRetries), steps + Schedule(rt.strategy, from, rt.maxRetries) + [Call(rt.maxRetries)])
    decreases rt.maxRetries - from
  {
    if from < rt.maxRetries {
      AlwaysFails(rt, fn, from + 1, steps + [Call(from)] + [Wait(rt.strategy(from))]);
      assert steps + [Call(from)] + [Wait(rt.strategy(from))] + Schedule(rt.strategy, from + 1, rt.maxRetries) + [Call(rt.maxRetries)]
          == steps + Schedule(rt.strategy, from, rt.maxRetries) + [Call(rt.maxRetries)];
    } else {
      assert Schedule(rt.strategy, from, rt.maxRetries) == [];
      assert steps + [] == steps;
    }
  }

  /** The calls a schedule makes: one per attempt it covers. */
  lemma {:induction false} ScheduleCalls(strategy: Strategy, from: Attempt, last: Attempt)
    requires from <= last
    ensures Calls(Schedule(strategy, from, last)) == last - from
    decreases last - from
  {
    if from < last {
      ScheduleCalls(strategy, from + 1, last);
      var head := [Call(from), Wait(strategy(from))];
      CallsAppend(head, Schedule(strategy, from + 1, last));
      assert Calls(head) == 1 by {
        assert Calls([Wait(strategy(from))]) == 0;
      }
    }
  }

  /** `Do` with a live context and a function that always fails calls it exactly `maxRetries` times. */
  lemma AlwaysFailsCalls<T>(rt: Retrier, fn: Attempt -> Result<T>)
    requires rt.Valid()
    requires forall a: Attempt :: fn(a).Err? && rt.shouldRetry(fn(a).error)
    ensures rt.Spec(Background(), fn).result == fn(rt.maxRetries)
    ensures Calls(rt.Spec(Background(), fn).trace) == rt.maxRetries
  {
    AlwaysFails(rt, fn, 1, []);
    ScheduleCalls(rt.strategy, 1, rt.maxRetries);
    var sched := Schedule(rt.strategy, 1, rt.maxRetries);
    assert [] + sched + [Call(rt.maxRetries)] == sched + [Call(rt.maxRetries)];
    CallsAppend(sched, [Call(rt.maxRetries)]);
  }

  /** An error the predicate refuses ends the run after one call, with that error. */
  lemma ShouldRetryFalse<T>(rt: Retrier, ctx: Context, fn: Attempt -> Result<T>)
    requires rt.Valid() && !ctx.doneBefore(1)
    requires fn(1).Err? && !rt.shouldRetry(fn(1).error)
    ensures rt.Spec(ctx, fn) == Outcome(fn(1), [Call(1)])
  {
  }

  /** A context that is done before the first attempt: `fn` is never called and the context's error is returned. */
  lemma CancelledBeforeStart<T>(rt: Retrier, ctx: Context, fn: Attempt -> Result<T>)
    requires rt.Valid() && ctx.doneBefore(1)
    ensures rt.Spec(ctx, fn) == Outcome(Err(ctx.err), [])
  {
  }

  /**
   * Whatever happens, a success carries the value of the last call, and a
   * failure carries either the context's error or the error of the last call.
   */
  lemma {:induction false} RunResult<T>(rt: Retrier, ctx: Context, fn: Attempt -> Result<T>, attempt: Attempt, steps: seq<Step>)
    requires attempt <= rt.maxRetries
    ensures var o := Run(rt.maxRetries, rt.strategy, rt.shouldRetry, ctx, fn, attempt, steps);
      (o.result.Ok? ==> o.trace != [] && o.trace[|o.trace| - 1].Call? && fn(o.trace[|o.trace| - 1].attempt) == o.result)
      && (o.result.Err? ==>
            o.result.error == ctx.err ||
            (o.trace != [] && o.trace[|o.trace| - 1].Call? && fn(o.trace[|o.trace| - 1].attempt) == o.result))
    decreases rt.maxRetries - attempt
  {
    if !ctx.doneBefore(attempt) && fn(attempt).Err? && rt.shouldRetry(fn(attempt).error)
       && attempt < rt.maxRetries && !ctx.doneDuringWait(attempt) {
      RunResult(rt, ctx, fn, attempt + 1, steps + [Call(attempt)] + [Wait(rt.strategy(attempt))]);
    }
  }
}
