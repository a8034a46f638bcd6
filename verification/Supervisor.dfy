/** internal/discovery/kubernetes: the watch supervisor's retries and their delays.
    Durations are reals. */
module Supervisor {

  datatype Backoff = Backoff(initialDelay: real, maxDelay: real, factor: real, jitter: real)

  const DEFAULT_INITIAL_DELAY := 1.0
  const DEFAULT_MAX_DELAY := 30.0
  const DEFAULT_FACTOR := 2.0

  /** What withDefaults establishes. */
  predicate Sane(b: Backoff) {
    0.0 < b.initialDelay <= b.maxDelay && b.factor > 1.0 && 0.0 <= b.jitter <= 1.0
  }

  function WithDefaults(b: Backoff): (r: Backoff)
    ensures Sane(r)
    ensures Sane(b) ==> r == b
    ensures b.initialDelay > 0.0 ==> r.initialDelay == b.initialDelay
    ensures b.maxDelay >= r.initialDelay ==> r.maxDelay == b.maxDelay
    ensures b.factor > 1.0 ==> r.factor == b.factor
    ensures 0.0 <= b.jitter <= 1.0 ==> r.jitter == b.jitter
  {
    var initial := if b.initialDelay <= 0.0 then DEFAULT_INITIAL_DELAY else b.initialDelay;
    var max := if b.maxDelay <= 0.0 then DEFAULT_MAX_DELAY else b.maxDelay;
    Backoff(initial,
            if max < initial then initial else max,
            if b.factor <= 1.0 then DEFAULT_FACTOR else b.factor,
            if b.jitter < 0.0 then 0.0 else if b.jitter > 1.0 then 1.0 else b.jitter)
  }

  /** What a policy with nothing set, or nothing usable, comes to. */
  lemma UnsetPolicy(b: Backoff)
    requires b.initialDelay <= 0.0 && b.maxDelay <= 0.0 && b.factor <= 1.0 && b.jitter <= 0.0
    ensures WithDefaults(b) == Backoff(1.0, 30.0, 2.0, 0.0)
  {
  }

  function Pow(f: real, n: nat): real {
    if n == 0 then 1.0 else f * Pow(f, n - 1)
  }

  function Min(a: real, b: real): real { if a <= b then a else b }

  function Exponential(b: Backoff, attempt: nat): real
    requires attempt >= 1
  {
    b.initialDelay * Pow(b.factor, attempt - 1)
  }

  /** The delay before jitter. */
  function Plain(b: Backoff, attempt: nat): real
    requires attempt >= 1
  {
    Min(Exponential(b, attempt), b.maxDelay)
  }

  /** Delay: random is the draw from [0, 1). */
  function Delay(policy: Backoff, attempt: int, random: real): real {
    var b := WithDefaults(policy);
    var delay := Plain(b, if attempt < 1 then 1 else attempt);
    if b.jitter == 0.0 || delay <= 0.0 then delay else Clamp(Jittered(delay, b.jitter, random), b.maxDelay)
  }

  function Jittered(delay: real, jitter: real, random: real): real {
    Between(delay, delay * jitter, random)
  }

  /** A point between delay - spread and delay + spread. */
  function Between(delay: real, spread: real, random: real): real {
    delay - spread + random * (delay + spread - (delay - spread))
  }

  function Clamp(x: real, max: real): real {
    var floored := if x < 0.0 then 0.0 else x;
    if floored > max then max else floored
  }

  lemma Scale(c: real, x: real, y: real)
    requires c >= 0.0 && x <= y
    ensures c * x <= c * y
  {
  }

  lemma ExponentialFirst(b: Backoff)
    ensures Exponential(b, 1) == b.initialDelay
  {
  }

  lemma ExponentialNext(b: Backoff, attempt: nat)
    requires attempt >= 1
    ensures Exponential(b, attempt + 1) == b.factor * Exponential(b, attempt)
  {
    var x := Pow(b.factor, attempt - 1);
    assert Pow(b.factor, attempt) == b.factor * x;
    assert b.initialDelay * (b.factor * x) == b.factor * (b.initialDelay * x);
  }

  /** Exponential growth outruns any straight line. */
  lemma {:induction false} ExponentialGrows(b: Backoff, attempt: nat)
    requires Sane(b) && attempt >= 1
    ensures Exponential(b, attempt) >= b.initialDelay + b.initialDelay * (b.factor - 1.0) * (attempt - 1) as real
    ensures Exponential(b, attempt) >= b.initialDelay
    decreases attempt
  {
    hide Exponential;
    var step := b.initialDelay * (b.factor - 1.0);
    if attempt == 1 {
      ExponentialFirst(b);
    } else {
      var x := Exponential(b, attempt - 1);
      ExponentialGrows(b, attempt - 1);
      ExponentialNext(b, attempt - 1);
      Scale(b.factor - 1.0, b.initialDelay, x);
      assert b.factor * x == x + (b.factor - 1.0) * x;
      assert step * (attempt - 1) as real == step * (attempt - 2) as real + step;
      Scale(step, 0.0, (attempt - 1) as real);
    }
  }

  /** Each further failure multiplies the wait by the factor, up to the maximum. */
  lemma PlainRecurrence(b: Backoff, attempt: nat)
    requires Sane(b) && attempt >= 1
    ensures Plain(b, 1) == b.initialDelay
    ensures Plain(b, attempt + 1) == Min(b.factor * Plain(b, attempt), b.maxDelay)
    ensures 0.0 < Plain(b, attempt) <= Plain(b, attempt + 1) <= b.maxDelay
  {
    hide Exponential;
    ExponentialFirst(b);
    ExponentialNext(b, attempt);
    ExponentialGrows(b, attempt);
    MinStep(Exponential(b, attempt), b.factor, b.maxDelay);
  }

  lemma MinStep(x: real, f: real, max: real)
    requires x > 0.0 && f > 1.0 && max > 0.0
    ensures Min(f * x, max) == Min(f * Min(x, max), max)
    ensures 0.0 < Min(x, max) <= Min(f * x, max) <= max
  {
    Above(x, f);
    Above(max, f);
  }

  lemma Above(x: real, f: real)
    requires x > 0.0 && f > 1.0
    ensures f * x > x
  {
    Positive(f - 1.0, x);
    assert f * x == x + (f - 1.0) * x;
  }

  /** Without jitter delays never shrink from one failure to the next and stay in (0, Max]. */
  lemma DelaysGrow(policy: Backoff, attempt: nat, r: real, q: real)
    requires attempt >= 1 && WithDefaults(policy).jitter == 0.0
    ensures 0.0 < Delay(policy, attempt, r) <= Delay(policy, attempt + 1, q) <= WithDefaults(policy).maxDelay
  {
    hide Plain;
    PlainRecurrence(WithDefaults(policy), attempt);
  }

  /** initial times factor to the power of the failures before this one, at most Max. */
  predicate Grown(b: Backoff, failures: nat, delay: real)
    requires failures >= 1
  {
    delay == Min(b.initialDelay * Pow(b.factor, failures - 1), b.maxDelay)
  }

  lemma GrownIsPlain(b: Backoff, attempt: nat)
    requires attempt >= 1
    ensures Grown(b, attempt, Plain(b, attempt)) && forall d :: Grown(b, attempt, d) ==> d == Plain(b, attempt)
  {
    hide Pow;
  }

  /** A delay with jitter: a draw r from [0, 1) and jitter j multiply it by 1 - j + 2rj. */
  function Swung(plain: real, jitter: real, random: real): real {
    plain * (1.0 - jitter + 2.0 * random * jitter)
  }

  /** The delay in full: the grown delay; with jitter that delay swung, again at most Max. */
  lemma DelayLaw(policy: Backoff, attempt: nat, random: real, plain: real)
    requires attempt >= 1 && 0.0 <= random < 1.0 && Grown(WithDefaults(policy), attempt, plain)
    ensures var b := WithDefaults(policy);
      Delay(policy, attempt, random) == if b.jitter == 0.0 then plain else Min(Swung(plain, b.jitter, random), b.maxDelay)
  {
    hide Plain, WithDefaults, Grown, Jittered, Swung;
    var b := WithDefaults(policy);
    GrownIsPlain(b, attempt);
    PlainRecurrence(b, attempt);
    JitterForm(plain, b.jitter, random);
  }

  lemma JitterForm(plain: real, jitter: real, random: real)
    requires plain > 0.0 && 0.0 <= jitter <= 1.0 && 0.0 <= random < 1.0
    ensures Jittered(plain, jitter, random) == Swung(plain, jitter, random) >= 0.0
  {
    BetweenIs(plain, plain * jitter, random);
    SwungIs(plain, jitter, random);
    hide Between, Swung;
    SpreadIn(plain, jitter);
    Above0(plain, plain * jitter, random);
  }

  lemma BetweenIs(delay: real, spread: real, random: real)
    ensures Between(delay, spread, random) == delay - spread + 2.0 * (random * spread)
  {
  }

  lemma SwungIs(plain: real, jitter: real, random: real)
    ensures Swung(plain, jitter, random) == plain - plain * jitter + 2.0 * (random * (plain * jitter))
  {
  }

  lemma SpreadIn(plain: real, jitter: real)
    requires plain > 0.0 && 0.0 <= jitter <= 1.0
    ensures 0.0 <= plain * jitter <= plain
  {
    Scale(plain, 0.0, jitter);
    Scale(plain, jitter, 1.0);
  }

  lemma Above0(plain: real, spread: real, random: real)
    requires 0.0 <= spread <= plain && 0.0 <= random
    ensures plain - spread + 2.0 * (random * spread) >= 0.0
  {
    Scale(spread, 0.0, random);
  }

  /** Without jitter the first failure waits the initial delay, and each further one the factor
      times as long, up to the maximum. */
  lemma DelayRecurrence(policy: Backoff, attempt: nat, r: real, q: real)
    requires attempt >= 1 && WithDefaults(policy).jitter == 0.0
    ensures var b := WithDefaults(policy);
      && Delay(policy, 1, r) == b.initialDelay
      && Delay(policy, attempt + 1, q) ==
           (var next := b.factor * Delay(policy, attempt, r); if next < b.maxDelay then next else b.maxDelay)
  {
    hide Plain;
    PlainRecurrence(WithDefaults(policy), attempt);
  }

  /** From failure number n on, every delay without jitter is the maximum. */
  ghost predicate AtMaxFrom(policy: Backoff, r: real, n: nat) {
    forall k: nat :: k >= n && k >= 1 ==> Delay(policy, k, r) == WithDefaults(policy).maxDelay
  }

  lemma DelaysReachMax(policy: Backoff, r: real)
    requires WithDefaults(policy).jitter == 0.0
    ensures exists n :: AtMaxFrom(policy, r, n)
  {
    hide Exponential, WithDefaults;
    var b := WithDefaults(policy);
    var step := b.initialDelay * (b.factor - 1.0);
    Positive(b.initialDelay, b.factor - 1.0);
    var n := (b.maxDelay / step).Floor + 2;
    Enough(step, b.maxDelay, n);
    forall k: nat | k >= n && k >= 1 ensures Delay(policy, k, r) == b.maxDelay {
      PastMax(b, n, k);
    }
    assert AtMaxFrom(policy, r, n);
  }

  lemma PastMax(b: Backoff, n: nat, k: nat)
    requires Sane(b) && k >= n >= 1
    requires b.initialDelay * (b.factor - 1.0) * (n - 1) as real >= b.maxDelay
    ensures Exponential(b, k) >= b.maxDelay
  {
    hide Exponential;
    var step := b.initialDelay * (b.factor - 1.0);
    Positive(b.initialDelay, b.factor - 1.0);
    ExponentialGrows(b, k);
    Scale(step, (n - 1) as real, (k - 1) as real);
  }

  lemma Positive(x: real, y: real)
    requires x > 0.0 && y > 0.0
    ensures x * y > 0.0
  {
  }

  lemma Enough(step: real, max: real, n: int)
    requires step > 0.0 && max > 0.0 && n == (max / step).Floor + 2
    ensures n >= 1 && step * (n - 1) as real >= max
  {
    assert max / step > 0.0 by { assert max / step * step == max; }
    assert (n - 1) as real >= max / step;
    Scale(step, max / step, (n - 1) as real);
    assert step * (max / step) == max;
  }

  /** With jitter every delay stays in [0, Max], for every attempt and every draw. */
  lemma DelayBounds(policy: Backoff, attempt: int, random: real)
    requires 0.0 <= random < 1.0
    ensures 0.0 <= Delay(policy, attempt, random) <= WithDefaults(policy).maxDelay
  {
    hide Plain, WithDefaults, Jittered;
    PlainRecurrence(WithDefaults(policy), if attempt < 1 then 1 else attempt);
  }

  datatype RunResult = NoError | Cancelled | Failure(error: string)

  datatype Sleep = Slept | SleepCancelled | SleepFailed

  /** How one run of the watch ended: whether it synced, its result, whether the ready channel is
      closed by then, the draw for the delay and the outcome of the sleep that may follow. */
  datatype RunEnd = RunEnd(synced: bool, result: RunResult, readyClosed: bool, random: real, sleep: Sleep)

  datatype Verdict = Stopped | GaveUp(error: string) | SleepError | Running

  /** Failures since and including the last synced run, up to run i. */
  function Streak(runs: seq<RunEnd>, i: nat): (k: nat)
    requires i < |runs|
    ensures k >= 1
  {
    if runs[i].synced || i == 0 then 1 else Streak(runs, i - 1) + 1
  }

  /** Whether one of the first i runs synced. */
  predicate SyncedBy(runs: seq<RunEnd>, i: nat)
    requires i <= |runs|
  {
    i > 0 && (runs[i - 1].synced || SyncedBy(runs, i - 1))
  }

  /** Run i failed with the watch known to have synced or to be ready, and was waited for. */
  predicate Retried(policy: Backoff, runs: seq<RunEnd>, i: nat, delay: real)
    requires i < |runs|
  {
    && runs[i].result.Failure?
    && (SyncedBy(runs, i + 1) || runs[i].readyClosed)
    && delay == Delay(policy, Streak(runs, i), runs[i].random)
  }

  lemma GrownDelay(policy: Backoff, attempt: nat, random: real)
    requires attempt >= 1 && WithDefaults(policy).jitter == 0.0
    ensures Grown(WithDefaults(policy), attempt, Delay(policy, attempt, random))
  {
    hide Plain, WithDefaults, Grown;
    GrownIsPlain(WithDefaults(policy), attempt);
  }

  lemma {:induction false} SyncedByIff(runs: seq<RunEnd>, i: nat)
    requires i <= |runs|
    ensures SyncedBy(runs, i) <==> exists j :: 0 <= j < i && runs[j].synced
  {
    if i > 0 {
      SyncedByIff(runs, i - 1);
    }
  }

  /** Run: the retry loop over the given run outcomes. Every run before the last one considered
      was retried after its delay; an error is returned exactly for a failure before any sync
      while ready is not closed. */
  method Run(policy: Backoff, readyAtStart: bool, runs: seq<RunEnd>) returns (delays: seq<real>, verdict: Verdict)
    requires forall i :: 0 <= i < |runs| && readyAtStart ==> runs[i].readyClosed
    ensures |delays| <= |runs|
    ensures forall i :: 0 <= i < |delays| ==> Retried(policy, runs, i, delays[i])
    ensures WithDefaults(policy).jitter == 0.0 ==>
      forall i :: 0 <= i < |delays| ==> Grown(WithDefaults(policy), Streak(runs, i), delays[i])
    ensures verdict.GaveUp? <==>
      var i := |delays|;
      && i < |runs| && (i >= 1 ==> runs[i - 1].sleep.Slept?)
      && runs[i].result.Failure? && !SyncedBy(runs, i + 1) && !runs[i].readyClosed
    ensures verdict.GaveUp? ==> runs[|delays|].result.error == verdict.error
    ensures verdict.Stopped? ==>
      || (|delays| < |runs| && !runs[|delays|].result.Failure?)
      || (|delays| >= 1 && runs[|delays| - 1].sleep.SleepCancelled?)
    ensures verdict.SleepError? ==> |delays| >= 1 && runs[|delays| - 1].sleep.SleepFailed?
    ensures verdict.Running? ==> |delays| == |runs|
  {
    hide Delay, WithDefaults, Grown;
    var b := WithDefaults(policy);
    var initialSyncSeen := readyAtStart;
    var attempt := 0;
    delays := [];
    for i := 0 to |runs|
      invariant |delays| == i
      invariant attempt == if i == 0 then 0 else Streak(runs, i - 1)
      invariant initialSyncSeen <==> readyAtStart || SyncedBy(runs, i)
      invariant forall j :: 0 <= j < i ==> Retried(policy, runs, j, delays[j])
      invariant b.jitter == 0.0 ==> forall j :: 0 <= j < i ==> Grown(b, Streak(runs, j), delays[j])
      invariant i >= 1 ==> runs[i - 1].sleep.Slept?
    {
      var run := runs[i];
      if run.synced && attempt > 0 {
        attempt := 0;
      }
      if !run.result.Failure? {
        return delays, Stopped;
      }
      if run.synced {
        initialSyncSeen := true;
      } else if !initialSyncSeen && !run.readyClosed {
        return delays, GaveUp(run.result.error);
      }
      attempt := attempt + 1;
      DefaultsOnce(policy, attempt, run.random);
      if b.jitter == 0.0 {
        GrownDelay(policy, attempt, run.random);
      }
      delays := delays + [Delay(b, attempt, run.random)];
      if run.sleep.SleepCancelled? {
        return delays, Stopped;
      }
      if run.sleep.SleepFailed? {
        return delays, SleepError;
      }
    }
    verdict := Running;
  }

  /** Normalising the policy at construction and again in Delay is normalising it once. */
  lemma DefaultsOnce(policy: Backoff, attempt: int, random: real)
    ensures Delay(WithDefaults(policy), attempt, random) == Delay(policy, attempt, random)
  {
  }

  /** The streak is the distance to the last synced run, counted inclusively. */
  lemma {:induction false} StreakCounts(runs: seq<RunEnd>, i: nat, j: nat)
    requires j <= i < |runs|
    requires runs[j].synced || j == 0
    requires forall m :: j < m <= i ==> !runs[m].synced
    ensures Streak(runs, i) == i - j + 1
  {
    if j < i {
      StreakCounts(runs, i - 1, j);
    }
  }
}
