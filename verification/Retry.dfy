/** `withRetry` of src/common/blockchain/retry.util.ts: a bounded retry loop with capped exponential delay. */
module Retry {
  import opened Wrappers
  import Like

  datatype Options = Options(maxAttempts: int, initialDelayMs: real, maxDelayMs: real, factor: real, jitter: bool)

  const DEFAULTS := Options(5, 200.0, 5000.0, 2.0, true)

  // ---------- Transient errors ----------

  /** Case folding of an ASCII pattern under the `i` flag. */
  function Fold(c: char): char { if 'A' <= c <= 'Z' then c + 32 as char else c }

  function Same(c: char): char { c }

  const ANY_CASE := ["timeout", "timed out", "network", "nonce too low", "replacement transaction underpriced",
                     "could not detect network"]

  const EXACT := ["ETIMEDOUT", "ECONNRESET", "ECONNREFUSED"]

  predicate IsTransientError(message: string) {
    (exists i :: 0 <= i < |ANY_CASE| && Like.Occurs(ANY_CASE[i], message, Fold))
    || (exists i :: 0 <= i < |EXACT| && Like.Occurs(EXACT[i], message, Same))
  }

  // ---------- The loop ----------

  /** An attempt acts on the world it finds and resolves or rejects. */
  type Operation<!W, !T, !E> = W -> (W, Result<T, E>)

  /** With no attempts at all, `throw lastError` throws undefined. */
  datatype Outcome<T, E> = Returned(value: T) | Threw(error: E) | ThrewUndefined

  function OutcomeOf<T, E>(answer: Result<T, E>): Outcome<T, E> {
    match answer case Ok(value) => Returned(value) case Err(error) => Threw(error)
  }

  /** The calls made, the waits between them and how it ended. */
  datatype Trace<W, T, E> = Trace(world: W, outcome: Outcome<T, E>, calls: nat, waits: seq<real>)

  function Min(a: real, b: real): real { if a < b then a else b }

  function NextDelay(options: Options, delay: real): real { Min(delay * options.factor, options.maxDelayMs) }

  function Wait(options: Options, delay: real, random: real): real {
    if options.jitter then delay * (0.5 + random) else delay
  }

  /** `random(k)` is the random number drawn after attempt `k`. */
  method WithRetry<W, T, E>(operation: Operation<W, T, E>, options: Options, shouldRetry: E -> bool,
                            random: nat -> real, start: W)
    returns (t: Trace<W, T, E>)
    ensures t == Retried(operation, options, shouldRetry, random, start, 0, options.initialDelayMs)
  {
    hide NextDelay, Wait;
    var attempt: nat, delay, world, waits := 0, options.initialDelayMs, start, [];
    while attempt < options.maxAttempts
      invariant var rest := Retried(operation, options, shouldRetry, random, world, attempt, delay);
                Retried(operation, options, shouldRetry, random, start, 0, options.initialDelayMs)
                == Trace(rest.world, rest.outcome, attempt + rest.calls, waits + rest.waits)
      invariant attempt > 0 ==> attempt < options.maxAttempts
    {
      var (next, result) := operation(world);
      world := next;
      match result {
        case Ok(value) => return Trace(world, Returned(value), attempt + 1, waits);
        case Err(error) =>
          attempt := attempt + 1;
          if attempt >= options.maxAttempts || !shouldRetry(error) {
            return Trace(world, Threw(error), attempt, waits);
          }
          waits := waits + [Wait(options, delay, random(attempt))];
          delay := NextDelay(options, delay);
      }
    }
    return Trace(world, ThrewUndefined, 0, []);
  }

  /** What the loop still does after `attempt` failed attempts. */
  function Retried<W, T, E>(operation: Operation<W, T, E>, options: Options, shouldRetry: E -> bool,
                            random: nat -> real, world: W, attempt: nat, delay: real): (t: Trace<W, T, E>)
    decreases options.maxAttempts - attempt
  {
    if attempt >= options.maxAttempts then Trace(world, ThrewUndefined, 0, [])
    else
      var step := operation(world);
      if step.1.Err? && attempt + 1 < options.maxAttempts && shouldRetry(step.1.error) then
        var rest := Retried(operation, options, shouldRetry, random, step.0, attempt + 1, NextDelay(options, delay));
        Trace(rest.world, rest.outcome, 1 + rest.calls, [Wait(options, delay, random(attempt + 1))] + rest.waits)
      else Trace(step.0, OutcomeOf(step.1), 1, [])
  }

  // ---------- Which attempts are made ----------

  /** The world after `n` calls in a row. */
  function After<W, T, E>(operation: Operation<W, T, E>, world: W, n: nat): W {
    if n == 0 then world else After(operation, operation(world).0, n - 1)
  }

  /** What call number `k` resolves or rejects with. */
  function Answer<W, T, E>(operation: Operation<W, T, E>, world: W, k: nat): Result<T, E> {
    operation(After(operation, world, k)).1
  }

  predicate FailsTransiently<W, T, E>(operation: Operation<W, T, E>, shouldRetry: E -> bool, world: W, k: nat) {
    Answer(operation, world, k).Err? && shouldRetry(Answer(operation, world, k).error)
  }

  /** Call `n` is the last one: it succeeds, or fails for good, or is the last one allowed. */
  predicate EndsWith<W, T, E>(operation: Operation<W, T, E>, shouldRetry: E -> bool, allowed: int, world: W, n: nat) {
    1 <= n <= allowed
    && (forall k :: 0 <= k < n - 1 ==> FailsTransiently(operation, shouldRetry, world, k))
    && (n < allowed ==> !FailsTransiently(operation, shouldRetry, world, n - 1))
  }

  /** Only one call can be the last one. */
  lemma EndsOnce<W, T, E>(operation: Operation<W, T, E>, shouldRetry: E -> bool, allowed: int, world: W, m: nat, n: nat)
    requires EndsWith(operation, shouldRetry, allowed, world, m) && EndsWith(operation, shouldRetry, allowed, world, n)
    ensures m == n
  {
    var lastOfM: nat, lastOfN: nat := m - 1, n - 1;
    assert m < n ==> FailsTransiently(operation, shouldRetry, world, lastOfM);
    assert n < m ==> FailsTransiently(operation, shouldRetry, world, lastOfN);
  }

  /**
   * Between 1 and `maxAttempts` calls; every one but the last failed transiently, and the last one's answer is
   * passed on.
   */
  lemma {:induction false} LastAnswerIsPassedOn<W, T, E>(operation: Operation<W, T, E>, options: Options,
                                                         shouldRetry: E -> bool, random: nat -> real,
                                                         world: W, attempt: nat, delay: real)
    requires attempt < options.maxAttempts
    ensures var t := Retried(operation, options, shouldRetry, random, world, attempt, delay);
            && EndsWith(operation, shouldRetry, options.maxAttempts - attempt, world, t.calls)
            && t.outcome == OutcomeOf(Answer(operation, world, t.calls - 1))
            && t.world == After(operation, world, t.calls)
            && |t.waits| == t.calls - 1
    decreases options.maxAttempts - attempt
  {
    hide NextDelay, Wait;
    var t := Retried(operation, options, shouldRetry, random, world, attempt, delay);
    var next := operation(world).0;
    assert After(operation, world, 1) == next by { assert After(operation, next, 0) == next; }
    if FailsTransiently(operation, shouldRetry, world, 0) && attempt + 1 < options.maxAttempts {
      var slower := NextDelay(options, delay);
      LastAnswerIsPassedOn(operation, options, shouldRetry, random, next, attempt + 1, slower);
      forall k | 0 < k < t.calls
        ensures Answer(operation, world, k) == Answer(operation, next, k - 1)
        ensures FailsTransiently(operation, shouldRetry, world, k)
            == FailsTransiently(operation, shouldRetry, next, k - 1)
      {
      }
    }
  }

  /**
   * The operation runs at least once exactly when an attempt is allowed; otherwise nothing happens but a thrown
   * undefined.
   */
  lemma RunsIff<W, T, E>(operation: Operation<W, T, E>, options: Options, shouldRetry: E -> bool, random: nat -> real,
                         world: W)
    ensures var t := Retried(operation, options, shouldRetry, random, world, 0, options.initialDelayMs);
            && (t.calls >= 1 <==> options.maxAttempts >= 1)
            && (options.maxAttempts < 1 ==> t == Trace(world, ThrewUndefined, 0, []))
            && t.calls <= (if options.maxAttempts >= 1 then options.maxAttempts else 0)
            && (t.outcome.ThrewUndefined? <==> options.maxAttempts < 1)
    ensures options.maxAttempts >= 1 ==>
              forall n :: EndsWith(operation, shouldRetry, options.maxAttempts, world, n) <==>
                n == Retried(operation, options, shouldRetry, random, world, 0, options.initialDelayMs).calls
  {
    if options.maxAttempts >= 1 {
      LastAnswerIsPassedOn(operation, options, shouldRetry, random, world, 0, options.initialDelayMs);
      var calls := Retried(operation, options, shouldRetry, random, world, 0, options.initialDelayMs).calls;
      hide EndsWith;
      forall n | EndsWith(operation, shouldRetry, options.maxAttempts, world, n) ensures n == calls {
        EndsOnce(operation, shouldRetry, options.maxAttempts, world, n, calls);
      }
    }
  }

  // ---------- How long it waits ----------

  /** The unjittered wait before attempt `k + 1`, from the loop's own recurrence. */
  function Delay(options: Options, k: nat): real
    requires k >= 1
  {
    if k == 1 then options.initialDelayMs else NextDelay(options, Delay(options, k - 1))
  }

  function Power(base: real, n: nat): real { if n == 0 then 1.0 else base * Power(base, n - 1) }

  function Uncapped(options: Options, k: nat): real
    requires k >= 1
  {
    options.initialDelayMs * Power(options.factor, k - 1)
  }

  /** The documented schedule: exponential growth under a cap. */
  function Capped(options: Options, k: nat): real
    requires k >= 1
  {
    Min(Uncapped(options, k), options.maxDelayMs)
  }

  lemma WaitsFollowDelays<W, T, E>(operation: Operation<W, T, E>, options: Options, shouldRetry: E -> bool,
                                   random: nat -> real, world: W, attempt: nat, delay: real, i: nat)
    requires delay == Delay(options, attempt + 1)
    requires i < |Retried(operation, options, shouldRetry, random, world, attempt, delay).waits|
    ensures Retried(operation, options, shouldRetry, random, world, attempt, delay).waits[i]
         == Wait(options, Delay(options, attempt + 1 + i), random(attempt + 1 + i))
    decreases i
  {
    hide NextDelay, Wait;
    if i > 0 {
      WaitsFollowDelays(operation, options, shouldRetry, random, operation(world).0, attempt + 1,
                        NextDelay(options, delay), i - 1);
    }
  }

  lemma TimesNonNegative(a: real, b: real)
    requires a >= 0.0 && b >= 0.0
    ensures a * b >= 0.0
  {
  }

  lemma TimesMonotone(a: real, b: real, f: real)
    requires a <= b && f >= 0.0
    ensures a * f <= b * f
  {
    TimesNonNegative(b - a, f);
  }

  /** Capping before the multiplication does not matter when the factor never brings the cap down. */
  lemma CapStep(options: Options, x: real, y: real, delay: real)
    requires options.maxDelayMs >= 0.0 && options.factor >= 1.0
    requires y == x * options.factor && delay == Min(x, options.maxDelayMs)
    ensures NextDelay(options, delay) == Min(y, options.maxDelayMs)
  {
    if x >= options.maxDelayMs {
      TimesMonotone(options.maxDelayMs, x, options.factor);
      TimesNonNegative(options.maxDelayMs, options.factor - 1.0);
    }
  }

  lemma UncappedStep(options: Options, k: nat)
    requires k >= 1
    ensures Uncapped(options, 1) == options.initialDelayMs
    ensures Uncapped(options, 2) == options.initialDelayMs * options.factor
    ensures Uncapped(options, k + 1) == Uncapped(options, k) * options.factor
  {
    assert Power(options.factor, 0) == 1.0 && Power(options.factor, 1) == options.factor;
    assert Power(options.factor, k) == options.factor * Power(options.factor, k - 1);
  }

  /**
   * With a factor of at least 1, the k-th wait is min(initialDelayMs * factor^(k-1), maxDelayMs) from the second
   * one on.
   */
  lemma {:induction false} DelayIsCapped(options: Options, k: nat)
    requires options.factor >= 1.0 && options.maxDelayMs >= 0.0 && k >= 2
    ensures Delay(options, k) == Capped(options, k)
  {
    hide Uncapped, Min, Power;
    UncappedStep(options, k - 1);
    if k > 2 {
      hide NextDelay;
      DelayIsCapped(options, k - 1);
      CapStep(options, Uncapped(options, k - 1), Uncapped(options, k), Delay(options, k - 1));
    } else {
      SecondDelay(options);
    }
  }

  lemma SecondDelay(options: Options)
    ensures Delay(options, 2) == Capped(options, 2)
  {
    UncappedStep(options, 1);
    assert Delay(options, 1) == options.initialDelayMs;
    assert Delay(options, 2) == NextDelay(options, options.initialDelayMs);
  }

  /** Below the cap, a factor below 1 never reaches it. */
  lemma ShrinkStep(x: real, cap: real, f: real)
    requires x <= cap && cap >= 0.0 && 0.0 <= f < 1.0
    ensures x * f <= cap
  {
    TimesMonotone(x, cap, f);
    TimesNonNegative(cap, 1.0 - f);
  }

  /** A factor below 1 from a delay that never reaches the cap. */
  lemma {:induction false} DelayIsUncapped(options: Options, k: nat)
    requires 0.0 <= options.factor < 1.0 && options.maxDelayMs >= 0.0 && k >= 2
    requires options.initialDelayMs * options.factor <= options.maxDelayMs
    ensures Delay(options, k) == Capped(options, k) == Uncapped(options, k)
  {
    hide Uncapped, Power;
    UncappedStep(options, k - 1);
    if k > 2 {
      DelayIsUncapped(options, k - 1);
      ShrinkStep(Uncapped(options, k - 1), options.maxDelayMs, options.factor);
    }
  }

  /** Exactly when the schedule of the loop is the documented one. */
  lemma ScheduleIff(options: Options)
    requires options.initialDelayMs >= 0.0 && options.maxDelayMs > 0.0 && options.factor >= 0.0
    ensures (forall k: nat :: k >= 2 ==> Delay(options, k) == Capped(options, k))
            <==> options.factor >= 1.0 || options.initialDelayMs * options.factor <= options.maxDelayMs
  {
    if options.factor >= 1.0 {
      forall k: nat | k >= 2 ensures Delay(options, k) == Capped(options, k) {
        DelayIsCapped(options, k);
      }
    } else if options.initialDelayMs * options.factor <= options.maxDelayMs {
      forall k: nat | k >= 2 ensures Delay(options, k) == Capped(options, k) {
        DelayIsUncapped(options, k);
      }
    } else {
      ShrinksBelowCap(options);
    }
  }

  /** Starting above the cap with a factor below 1, the third wait is shorter than the schedule says. */
  lemma ShrinksBelowCap(options: Options)
    requires 0.0 <= options.factor < 1.0 && options.maxDelayMs > 0.0
    requires options.initialDelayMs * options.factor > options.maxDelayMs
    ensures Delay(options, 3) < Capped(options, 3)
  {
    var f, cap := options.factor, options.maxDelayMs;
    var second := options.initialDelayMs * f;
    assert Delay(options, 2) == cap by { assert Delay(options, 1) == options.initialDelayMs; }
    assert Power(f, 2) == f * f by { assert Power(f, 1) == f by { assert Power(f, 0) == 1.0; } }
    assert options.initialDelayMs * (f * f) == second * f;
    assert f > 0.0;
    Strict(cap, second, f);
    Strict(f, 1.0, cap);
  }

  lemma Strict(a: real, b: real, f: real)
    requires a < b && f > 0.0
    ensures a * f < b * f
  {
  }

  function Sum(waits: seq<real>): real { if waits == [] then 0.0 else waits[0] + Sum(waits[1..]) }

  predicate IsRandom(random: nat -> real, upTo: nat) { forall k: nat :: k <= upTo ==> 0.0 <= random(k) < 1.0 }

  function Delays(options: Options, n: nat): seq<real> {
    if n == 0 then [] else Delays(options, n - 1) + [Delay(options, n)]
  }

  lemma {:induction false} SumAppend(a: seq<real>, x: real)
    ensures Sum(a + [x]) == Sum(a) + x
  {
    if a == [] {
      assert a + [x] == [x];
    } else {
      SumAppend(a[1..], x);
      assert (a + [x])[1..] == a[1..] + [x];
    }
  }

  lemma {:induction false} DelayNonNegative(options: Options, k: nat)
    requires k >= 1 && options.initialDelayMs >= 0.0 && options.maxDelayMs >= 0.0 && options.factor >= 0.0
    ensures Delay(options, k) >= 0.0
  {
    if k > 1 {
      DelayNonNegative(options, k - 1);
      TimesNonNegative(Delay(options, k - 1), options.factor);
    }
  }

  /** The first `n` waits, in order, under the random numbers drawn. */
  predicate AreWaits(options: Options, random: nat -> real, waits: seq<real>) {
    forall i: nat :: i < |waits| ==> waits[i] == Wait(options, Delay(options, i + 1), random(i + 1))
  }

  lemma {:induction false} JitterBound(options: Options, random: nat -> real, waits: seq<real>)
    requires options.initialDelayMs >= 0.0 && options.maxDelayMs >= 0.0 && options.factor >= 0.0
    requires AreWaits(options, random, waits) && IsRandom(random, |waits|)
    ensures 0.5 * Sum(Delays(options, |waits|)) <= Sum(waits) <= 1.5 * Sum(Delays(options, |waits|))
    ensures Sum(Delays(options, |waits|)) > 0.0 ==> Sum(waits) < 1.5 * Sum(Delays(options, |waits|))
    ensures !options.jitter ==> Sum(waits) == Sum(Delays(options, |waits|))
    ensures Sum(Delays(options, |waits|)) >= 0.0
    decreases |waits|
  {
    if waits != [] {
      var n := |waits|;
      var shorter := waits[..n - 1];
      assert waits == shorter + [waits[n - 1]];
      JitterBound(options, random, shorter);
      SumAppend(shorter, waits[n - 1]);
      SumAppend(Delays(options, n - 1), Delay(options, n));
      DelayNonNegative(options, n);
      WaitBound(options, Delay(options, n), random(n));
    }
  }

  lemma Jittered(delay: real, random: real, wait: real)
    requires delay > 0.0 && 0.0 <= random < 1.0 && wait == delay * (0.5 + random)
    ensures 0.5 * delay <= wait < 1.5 * delay
  {
    var part := delay * random;
    assert part < delay by { assert 0.0 < (1.0 - random) * delay; }
    assert wait == delay * 0.5 + part;
  }

  lemma WaitBound(options: Options, delay: real, random: real)
    requires delay >= 0.0 && 0.0 <= random < 1.0
    ensures 0.5 * delay <= Wait(options, delay, random) <= 1.5 * delay
    ensures delay > 0.0 ==> Wait(options, delay, random) < 1.5 * delay
    ensures !options.jitter ==> Wait(options, delay, random) == delay
  {
    if delay > 0.0 && options.jitter {
      Jittered(delay, random, Wait(options, delay, random));
    }
  }

  /** The time spent waiting stays under one and a half times the unjittered schedule of the attempts made. */
  lemma TotalWait<W, T, E>(operation: Operation<W, T, E>, options: Options, shouldRetry: E -> bool,
                           random: nat -> real, world: W)
    requires options.initialDelayMs >= 0.0 && options.maxDelayMs >= 0.0 && options.factor >= 0.0
    requires forall k: nat :: 0.0 <= random(k) < 1.0
    ensures var t := Retried(operation, options, shouldRetry, random, world, 0, options.initialDelayMs);
            var plain := Sum(Delays(options, |t.waits|));
            && 0.5 * plain <= Sum(t.waits) && (plain > 0.0 ==> Sum(t.waits) < 1.5 * plain)
            && (plain == 0.0 || !options.jitter ==> Sum(t.waits) == plain)
  {
    var t := Retried(operation, options, shouldRetry, random, world, 0, options.initialDelayMs);
    forall i: nat | i < |t.waits| ensures t.waits[i] == Wait(options, Delay(options, i + 1), random(i + 1)) {
      WaitsFollowDelays(operation, options, shouldRetry, random, world, 0, options.initialDelayMs, i);
    }
    JitterBound(options, random, t.waits);
  }

  // ---------- What every attempt keeps ----------

  /** A property kept by every attempt is kept by the whole retried call. */
  lemma {:induction false} RetryKeeps<W(!new), T, E>(operation: Operation<W, T, E>, options: Options,
                                                     shouldRetry: E -> bool, random: nat -> real,
                                                     world: W, attempt: nat, delay: real, kept: W -> bool)
    requires kept(world) && forall w :: kept(w) ==> kept(operation(w).0)
    ensures kept(Retried(operation, options, shouldRetry, random, world, attempt, delay).world)
    decreases options.maxAttempts - attempt
  {
    hide NextDelay, Wait;
    if attempt < options.maxAttempts {
      RetryKeeps(operation, options, shouldRetry, random, operation(world).0, attempt + 1,
                 NextDelay(options, delay), kept);
    }
  }
}
