/** The three retry loops: the model runtime, the resilience helper, the optimised executor. */
module Retry {
  import opened Common

  /** What makes an attempt fail: an error of the model layer, a timeout, or anything else. */
  datatype Failure = ModelError(id: nat, retryable: bool) | Timeout | ModelTimeoutError | Foreign(id: nat)

  datatype Attempt<+T> = Returned(value: T) | Failed(failure: Failure)

  /** What a loop has done when it ends. `result` is `None` for a loop without a single turn. */
  datatype Run<+T> = Run(calls: nat, sleeps: seq<real>, result: Option<Attempt<T>>)

  function RealMin(a: real, b: real): real {
    if b < a then b else a
  }

  function Pow(base: real, exponent: nat): real {
    if exponent == 0 then 1.0 else base * Pow(base, exponent - 1)
  }

  // ----- what a bounded retry loop does -----

  /** Attempt `i` failed in a way that is worth another attempt. */
  predicate Again<T>(operation: nat -> Attempt<T>, again: Failure -> bool, i: nat) {
    operation(i).Failed? && again(operation(i).failure)
  }

  /** The loop stops at the first attempt that returns or is not worth another, or at the
      limit, and sleeps between attempts. */
  ghost predicate Explains<T>(operation: nat -> Attempt<T>, limit: int, again: Failure -> bool,
                              delay: nat -> real, run: Run<T>) {
    if limit < 1 then run == Run(0, [], None)
    else
      && 1 <= run.calls <= limit
      && (forall i: nat :: i < run.calls - 1 ==> Again(operation, again, i))
      && (Again(operation, again, run.calls - 1) ==> run.calls == limit)
      && run.result == Some(operation(run.calls - 1))
      && |run.sleeps| == run.calls - 1
      && forall i: nat :: i < run.calls - 1 ==> run.sleeps[i] == delay(i)
  }

  lemma StopsAtOnePlace<T>(operation: nat -> Attempt<T>, limit: int, again: Failure -> bool,
                           delay: nat -> real, delay': nat -> real, a: Run<T>, b: Run<T>)
    requires Explains(operation, limit, again, delay, a)
    requires Explains(operation, limit, again, delay', b)
    ensures a.calls <= b.calls
  {
    if limit >= 1 {
      var last: nat := b.calls - 1;
      assert last < a.calls - 1 ==> Again(operation, again, last);
    }
  }

  // ----- resilience: retry_async -----

  datatype ResiliencePolicy = ResiliencePolicy(maxRetries: int, backoff: real, maxBackoff: real) {
    function Delay(attempt: nat): real {
      RealMin(maxBackoff, backoff * Pow(2.0, attempt))
    }
  }

  /** The policy is not validated: with a negative number of retries the operation never runs. */
  method RetryAsync<T>(operation: nat -> Attempt<T>, policy: ResiliencePolicy, shouldRetry: Failure -> bool)
    returns (run: Run<T>)
    ensures Explains(operation, policy.maxRetries + 1, shouldRetry, (k: nat) => policy.Delay(k), run)
  {
    var attempt := 0;
    var sleeps: seq<real> := [];
    while attempt < policy.maxRetries + 1
      invariant 0 <= attempt
      invariant attempt > 0 ==> attempt < policy.maxRetries + 1
      invariant forall i: nat :: i < attempt ==> Again(operation, shouldRetry, i)
      invariant |sleeps| == attempt && forall i: nat :: i < attempt ==> sleeps[i] == policy.Delay(i)
    {
      var outcome := operation(attempt);
      if outcome.Returned? {
        return Run(attempt + 1, sleeps, Some(outcome));
      }
      if attempt >= policy.maxRetries || !shouldRetry(outcome.failure) {
        return Run(attempt + 1, sleeps, Some(outcome));
      }
      sleeps := sleeps + [policy.Delay(attempt)];
      attempt := attempt + 1;
    }
    return Run(0, [], None);
  }

  // ----- optimised execution: retry_optimized -----

  datatype RetryConfig = RetryConfig(maxAttempts: int, baseDelay: real, maxDelay: real, jitter: real) {
    predicate Valid() {
      maxAttempts >= 1 && baseDelay >= 0.0 && maxDelay >= 0.0
    }

    /** `draw` is the random number behind the jitter of this delay. */
    function Delay(attempt: nat, draw: real): real {
      Spread(RealMin(maxDelay, baseDelay * Pow(2.0, attempt)), draw)
    }

    function Spread(delay: real, draw: real): real {
      if jitter != 0.0 then delay + draw * (delay * jitter) else delay
    }
  }

  method MakeRetryConfig(maxAttempts: int, baseDelay: real, maxDelay: real, jitter: real)
    returns (r: Result<RetryConfig, ValueError>)
    ensures r.Err? <==> maxAttempts < 1 || baseDelay < 0.0 || maxDelay < 0.0
    ensures r.Ok? ==> r.value == RetryConfig(maxAttempts, baseDelay, maxDelay, jitter) && r.value.Valid()
  {
    if maxAttempts < 1 || baseDelay < 0.0 || maxDelay < 0.0 {
      return Err(ValueError.ValueError);
    }
    return Ok(RetryConfig(maxAttempts, baseDelay, maxDelay, jitter));
  }

  method RetryOptimized<T>(operation: nat -> Attempt<T>, config: RetryConfig, retryable: Failure -> bool,
                           draws: nat -> real) returns (run: Run<T>)
    requires config.Valid()
    ensures Explains(operation, config.maxAttempts, retryable, (k: nat) => config.Delay(k, draws(k)), run)
  {
    var attempt := 0;
    var sleeps: seq<real> := [];
    while attempt < config.maxAttempts
      invariant 0 <= attempt < config.maxAttempts
      invariant forall i: nat :: i < attempt ==> Again(operation, retryable, i)
      invariant |sleeps| == attempt && forall i: nat :: i < attempt ==> sleeps[i] == config.Delay(i, draws(i))
      decreases config.maxAttempts - attempt
    {
      var outcome := operation(attempt);
      if outcome.Returned? {
        return Run(attempt + 1, sleeps, Some(outcome));
      }
      if attempt + 1 >= config.maxAttempts || !retryable(outcome.failure) {
        return Run(attempt + 1, sleeps, Some(outcome));
      }
      var delay := RealMin(config.maxDelay, config.baseDelay * Pow(2.0, attempt));
      if config.jitter != 0.0 {
        delay := delay + draws(attempt) * (delay * config.jitter);
      }
      sleeps := sleeps + [delay];
      attempt := attempt + 1;
    }
    // Every turn returns or leaves another one, so the loop does not run out.
    assert false;
  }

  // ----- the model runtime: ReliableModel -----

  datatype ModelPolicy = ModelPolicy(maxAttempts: int, initialDelay: real, maxDelay: real, multiplier: real) {
    predicate Valid() {
      maxAttempts >= 1 && initialDelay >= 0.0 && maxDelay >= initialDelay && multiplier >= 1.0
    }

    function Delay(attempt: nat): real
      requires attempt >= 1
    {
      RealMin(maxDelay, initialDelay * Pow(multiplier, attempt - 1))
    }
  }

  /** The jitter of a model policy is checked, and then not used. */
  method MakeModelPolicy(maxAttempts: int, initialDelay: real, maxDelay: real, multiplier: real, jitter: real)
    returns (r: Result<ModelPolicy, ValueError>)
    ensures r.Err? <==> maxAttempts < 1 || initialDelay < 0.0 || maxDelay < initialDelay || multiplier < 1.0
                          || jitter < 0.0
    ensures r.Ok? ==> r.value == ModelPolicy(maxAttempts, initialDelay, maxDelay, multiplier) && r.value.Valid()
  {
    if maxAttempts < 1 {
      return Err(ValueError.ValueError);
    }
    if initialDelay < 0.0 || maxDelay < 0.0 {
      return Err(ValueError.ValueError);
    }
    if maxDelay < initialDelay || multiplier < 1.0 || jitter < 0.0 {
      return Err(ValueError.ValueError);
    }
    return Ok(ModelPolicy(maxAttempts, initialDelay, maxDelay, multiplier));
  }

  /** What the model runtime retries: every timeout, and model errors marked retryable. */
  predicate ModelRetries(failure: Failure) {
    failure.Timeout? || (failure.ModelError? && failure.retryable)
  }

  /** The last timeout is raised as an error of the model layer. */
  function Raised<T>(result: Attempt<T>): Attempt<T> {
    if result == Failed(Timeout) then Failed(ModelTimeoutError) else result
  }

  /** An attempt worth another: it timed out, or failed with a model error marked retryable. */
  predicate IsTransient<T>(attempt: Attempt<T>) {
    match attempt
    case Failed(Timeout) => true
    case Failed(ModelError(_, retryable)) => retryable
    case _ => false
  }

  datatype Response = Response(inputTokens: nat, outputTokens: nat, cost: Option<real>)

  datatype Ledger = Ledger(requests: nat, inputTokens: nat, outputTokens: nat, cost: real) {
    function Record(r: Response): Ledger {
      Ledger(requests + 1, inputTokens + r.inputTokens, outputTokens + r.outputTokens,
             cost + if r.cost.Some? then r.cost.value else 0.0)
    }
  }

  class ReliableModel {
    const policy: ModelPolicy
    var traces: seq<nat>
    var usage: Ledger

    /** One trace, with its number of attempts, for every recorded response. */
    ghost predicate Valid()
      reads this
    {
      policy.Valid() && |traces| == usage.requests && forall n :: n in traces ==> 1 <= n <= policy.maxAttempts
    }

    constructor (policy: ModelPolicy)
      requires policy.Valid()
      ensures Valid() && this.policy == policy && usage == Ledger(0, 0, 0, 0.0)
    {
      this.policy := policy;
      traces, usage := [], Ledger(0, 0, 0, 0.0);
    }

    method Call(operation: nat -> Attempt<Response>) returns (run: Run<Response>)
      requires policy.Valid()
      modifies `traces
      ensures run.result.Some? && 1 <= run.calls <= policy.maxAttempts
      ensures Explains(operation, policy.maxAttempts, ModelRetries, (k: nat) => policy.Delay(k + 1),
                       run.(result := Some(operation(run.calls - 1))))
      ensures run.result == Some(Raised(operation(run.calls - 1)))
      ensures forall i: nat :: i < run.calls - 1 ==> IsTransient(operation(i))
      ensures IsTransient(operation(run.calls - 1)) ==> run.calls == policy.maxAttempts
      ensures run.result == Some(if operation(run.calls - 1) == Failed(Timeout) then Failed(ModelTimeoutError)
                                 else operation(run.calls - 1))
      ensures traces == old(traces) + if run.result.value.Returned? then [run.calls] else []
    {
      var attempts := 0;
      var sleeps: seq<real> := [];
      while true
        invariant 0 <= attempts < policy.maxAttempts
        invariant traces == old(traces)
        invariant forall i: nat :: i < attempts ==> Again(operation, ModelRetries, i)
        invariant forall i: nat :: i < attempts ==> IsTransient(operation(i))
        invariant |sleeps| == attempts && forall i: nat :: i < attempts ==> sleeps[i] == policy.Delay(i + 1)
        decreases policy.maxAttempts - attempts
      {
        attempts := attempts + 1;
        var outcome := operation(attempts - 1);
        match outcome {
          case Returned(_) =>
            traces := traces + [attempts];
            return Run(attempts, sleeps, Some(outcome));
          case Failed(Timeout) =>
            if attempts >= policy.maxAttempts {
              return Run(attempts, sleeps, Some(Failed(ModelTimeoutError)));
            }
          case Failed(ModelError(_, retryable)) =>
            if !retryable || attempts >= policy.maxAttempts {
              return Run(attempts, sleeps, Some(outcome));
            }
          case Failed(_) =>
            return Run(attempts, sleeps, Some(outcome));
        }
        sleeps := sleeps + [policy.Delay(attempts)];
      }
    }

    /** A request: usage is recorded once, and only when a response came back. */
    method Generate(operation: nat -> Attempt<Response>) returns (run: Run<Response>)
      requires Valid()
      modifies this
      ensures Valid()
      ensures run.result.Some? && 1 <= run.calls <= policy.maxAttempts
      ensures run.result == Some(Raised(operation(run.calls - 1)))
      ensures run.result.value.Returned? ==>
                var response := run.result.value.value;
                && traces == old(traces) + [run.calls]
                && usage.requests == old(usage).requests + 1
                && usage.inputTokens == old(usage).inputTokens + response.inputTokens
                && usage.outputTokens == old(usage).outputTokens + response.outputTokens
                && usage.cost == (if response.cost.Some? then old(usage).cost + response.cost.value else old(usage).cost)
      ensures run.result.value.Failed? ==> usage == old(usage) && traces == old(traces)
    {
      run := Call(operation);
      if run.result.value.Returned? {
        usage := usage.Record(run.result.value.value);
      }
    }
  }

  // ----- the three loops are the same loop -----

  lemma DelaysAgree(p: ModelPolicy, q: ResiliencePolicy, c: RetryConfig, k: nat, draw: real)
    requires p.multiplier == 2.0
    requires q == ResiliencePolicy(p.maxAttempts - 1, p.initialDelay, p.maxDelay)
    requires c == RetryConfig(p.maxAttempts, p.initialDelay, p.maxDelay, 0.0)
    ensures p.Delay(k + 1) == q.Delay(k) == c.Delay(k, draw)
  {
    assert c.jitter == 0.0;
  }

  /** Under the parameter map the three loops make the same calls and the same sleeps and end
      the same way, whatever the operation does, except that the model runtime raises its
      last timeout under another name. */
  lemma LoopsAgree<T>(operation: nat -> Attempt<T>, p: ModelPolicy, q: ResiliencePolicy, c: RetryConfig,
                      draws: nat -> real, a: Run<T>, b: Run<T>, d: Run<T>)
    requires p.Valid() && p.multiplier == 2.0
    requires q == ResiliencePolicy(p.maxAttempts - 1, p.initialDelay, p.maxDelay)
    requires c == RetryConfig(p.maxAttempts, p.initialDelay, p.maxDelay, 0.0)
    requires 1 <= a.calls && a.result == Some(Raised(operation(a.calls - 1)))
    requires Explains(operation, p.maxAttempts, ModelRetries, (k: nat) => p.Delay(k + 1),
                      a.(result := Some(operation(a.calls - 1))))
    requires Explains(operation, q.maxRetries + 1, ModelRetries, (k: nat) => q.Delay(k), b)
    requires Explains(operation, c.maxAttempts, ModelRetries, (k: nat) => c.Delay(k, draws(k)), d)
    ensures b == d
    ensures a.calls == b.calls && a.sleeps == b.sleeps
    ensures b.result.Some? && a.result == Some(Raised(b.result.value))
    ensures b.result != Some(Failed(Timeout)) ==> a == b
  {
    var a' := a.(result := Some(operation(a.calls - 1)));
    var n := p.maxAttempts;
    var da, db, dc := (k: nat) => p.Delay(k + 1), (k: nat) => q.Delay(k), (k: nat) => c.Delay(k, draws(k));
    StopsAtOnePlace(operation, n, ModelRetries, da, db, a', b);
    StopsAtOnePlace(operation, n, ModelRetries, db, dc, b, d);
    StopsAtOnePlace(operation, n, ModelRetries, dc, da, d, a');
    forall k: nat
      ensures da(k) == db(k) && db(k) == dc(k)
    {
      DelaysAgree(p, q, c, k, draws(k));
    }
    assert a.sleeps == b.sleeps;
    assert b.sleeps == d.sleeps;
  }

  // ----- how long the loops sleep -----

  function Total(sleeps: seq<real>): real {
    if sleeps == [] then 0.0 else Total(sleeps[..|sleeps| - 1]) + sleeps[|sleeps| - 1]
  }

  /** The uncapped delay, one multiplication at a time. */
  function Growth(initial: real, base: real, k: nat): real {
    if k == 0 then initial else base * Growth(initial, base, k - 1)
  }

  lemma Swap(a: real, b: real, c: real)
    ensures a * (b * c) == b * (a * c)
  {
  }

  lemma {:induction false} GrowthIsPower(initial: real, base: real, k: nat)
    ensures Growth(initial, base, k) == initial * Pow(base, k)
  {
    if k > 0 {
      GrowthIsPower(initial, base, k - 1);
      Swap(initial, base, Pow(base, k - 1));
    }
  }

  lemma AtLeastOnce(base: real, x: real)
    requires base >= 1.0 && x >= 0.0
    ensures x <= base * x
  {
  }

  lemma {:induction false} GrowthIsPositive(initial: real, base: real, k: nat)
    requires initial >= 0.0 && base >= 1.0
    ensures Growth(initial, base, k) >= 0.0
  {
    if k > 0 {
      GrowthIsPositive(initial, base, k - 1);
      AtLeastOnce(base, Growth(initial, base, k - 1));
    }
  }

  ghost predicate BacksOff(sleeps: seq<real>, initial: real, cap: real, base: real) {
    forall i: nat :: i < |sleeps| ==> sleeps[i] == Capped(cap, Growth(initial, base, i))
  }

  function Capped(cap: real, delay: real): real {
    if delay <= cap then delay else cap
  }

  /** The delay of the plain loops is their first delay, multiplied once per earlier attempt and
      cut at the cap. */
  lemma DelaysWrittenOut(p: ModelPolicy, q: ResiliencePolicy, k: nat)
    ensures p.Delay(k + 1) == Capped(p.maxDelay, Growth(p.initialDelay, p.multiplier, k))
    ensures q.Delay(k) == Capped(q.maxBackoff, Growth(q.backoff, 2.0, k))
  {
    GrowthIsPower(p.initialDelay, p.multiplier, k);
    GrowthIsPower(q.backoff, 2.0, k);
  }

  /** The optimised executor adds a drawn share of the jitter to it. */
  lemma JitteredDelay(c: RetryConfig, k: nat, draw: real)
    ensures var capped := Capped(c.maxDelay, Growth(c.baseDelay, 2.0, k));
            c.Delay(k, draw) == capped + draw * (capped * c.jitter)
  {
    GrowthIsPower(c.baseDelay, 2.0, k);
    SpreadAddsAShare(c, Capped(c.maxDelay, Growth(c.baseDelay, 2.0, k)), draw);
  }

  lemma SpreadAddsAShare(c: RetryConfig, delay: real, draw: real)
    ensures c.Spread(delay, draw) == delay + draw * (delay * c.jitter)
  {
    if c.jitter == 0.0 {
      assert delay * c.jitter == 0.0;
    }
  }

  /** With draws below one the jitter lengthens a delay by at most its share. */
  lemma JitterIsBounded(c: RetryConfig, k: nat, draw: real)
    requires c.Valid() && c.jitter >= 0.0 && 0.0 <= draw <= 1.0
    ensures var capped := Capped(c.maxDelay, Growth(c.baseDelay, 2.0, k));
            capped <= c.Delay(k, draw) <= capped + capped * c.jitter
  {
    var capped := Capped(c.maxDelay, Growth(c.baseDelay, 2.0, k));
    JitteredDelay(c, k, draw);
    GrowthIsPositive(c.baseDelay, 2.0, k);
    assert 0.0 <= capped;
    ShareOf(draw, capped * c.jitter);
  }

  lemma ShareOf(draw: real, x: real)
    requires 0.0 <= draw <= 1.0 && x >= 0.0
    ensures 0.0 <= draw * x <= x
  {
  }

  /** The sleeps of the model runtime are capped exponential delays. */
  lemma SleepsBackOff<T>(operation: nat -> Attempt<T>, p: ModelPolicy, run: Run<T>)
    requires p.Valid()
    requires Explains(operation, p.maxAttempts, ModelRetries, (k: nat) => p.Delay(k + 1), run)
    ensures BacksOff(run.sleeps, p.initialDelay, p.maxDelay, p.multiplier)
    ensures |run.sleeps| <= p.maxAttempts - 1
  {
    var delay := (k: nat) => p.Delay(k + 1);
    forall i: nat | i < |run.sleeps|
      ensures run.sleeps[i] == Capped(p.maxDelay, Growth(p.initialDelay, p.multiplier, i))
    {
      assert run.sleeps[i] == delay(i);
      GrowthIsPower(p.initialDelay, p.multiplier, i);
    }
  }

  /** Sleeps never get shorter, for any multiplier. */
  lemma {:induction false} SleepsNeverShrink(sleeps: seq<real>, initial: real, cap: real, base: real, i: nat, j: nat)
    requires initial >= 0.0 && base >= 1.0
    requires BacksOff(sleeps, initial, cap, base)
    requires i <= j < |sleeps|
    ensures sleeps[i] <= sleeps[j] <= cap
    decreases j
  {
    if i < j {
      SleepsNeverShrink(sleeps, initial, cap, base, i, j - 1);
      GrowthIsPositive(initial, base, j - 1);
      AtLeastOnce(base, Growth(initial, base, j - 1));
    }
  }

  /** Doubling delays sum to less than the next one. */
  lemma {:induction false} TotalBelowNext(sleeps: seq<real>, initial: real, cap: real)
    requires BacksOff(sleeps, initial, cap, 2.0)
    ensures Total(sleeps) <= Growth(initial, 2.0, |sleeps|) - initial
  {
    if sleeps != [] {
      TotalBelowNext(sleeps[..|sleeps| - 1], initial, cap);
    }
  }

  lemma {:induction false} GrowthGrows(initial: real, k: nat, n: nat)
    requires initial >= 0.0 && k <= n
    ensures Growth(initial, 2.0, k) <= Growth(initial, 2.0, n)
  {
    if k < n {
      GrowthGrows(initial, k, n - 1);
      GrowthIsPositive(initial, 2.0, n - 1);
    }
  }

  lemma {:induction false} TotalBelowCaps(sleeps: seq<real>, initial: real, cap: real, base: real)
    requires BacksOff(sleeps, initial, cap, base)
    ensures Total(sleeps) <= Times(|sleeps|, cap)
  {
    if sleeps != [] {
      TotalBelowCaps(sleeps[..|sleeps| - 1], initial, cap, base);
    }
  }

  /** A request retried with doubling delays sleeps for at most the smaller of two bounds: the
      cap after every attempt but the last, and initial * 2^(n-1) - initial. */
  lemma TotalSleepIsBounded<T>(operation: nat -> Attempt<T>, p: ModelPolicy, run: Run<T>)
    requires p.Valid() && p.multiplier == 2.0
    requires Explains(operation, p.maxAttempts, ModelRetries, (k: nat) => p.Delay(k + 1), run)
    ensures Total(run.sleeps) <= Times(p.maxAttempts - 1, p.maxDelay)
    ensures Total(run.sleeps) <= p.initialDelay * Pow(2.0, p.maxAttempts - 1) - p.initialDelay
  {
    SleepsBackOff(operation, p, run);
    TotalBelowCaps(run.sleeps, p.initialDelay, p.maxDelay, 2.0);
    TimesGrows(|run.sleeps|, p.maxAttempts - 1, p.maxDelay);
    TotalBelowNext(run.sleeps, p.initialDelay, p.maxDelay);
    GrowthGrows(p.initialDelay, |run.sleeps|, p.maxAttempts - 1);
    GrowthIsPower(p.initialDelay, 2.0, p.maxAttempts - 1);
  }
}
