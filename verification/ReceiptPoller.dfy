/** `pollReceipt` of src/blockchain/receipt-poller.ts: doubling delays under an overall timeout. */
module ReceiptPoller {
  datatype Receipt = Receipt(blockNumber: nat, status: nat)

  datatype Reply = Missing | Found(receipt: Receipt) | Fails(message: string)

  /** What call `k` answers, how long it takes, and how much later than asked the timer after it fires. */
  datatype Network = Network(reply: nat -> Reply, latency: nat -> nat, lateness: nat -> nat)

  datatype Options = Options(timeoutMs: int, baseMs: int, maxMs: int)

  const MAX_TIMER := 0x7FFF_FFFF

  /** `setTimeout` in Node.js takes any delay outside 1 to 2^31 - 1 as 1 ms. */
  function Sleep(delay: int): (ms: int)
    ensures ms >= 1
    ensures ms <= Max(1, delay)
  {
    if 1 <= delay <= MAX_TIMER then delay else 1
  }

  datatype Outcome = Got(receipt: Receipt) | TimedOut | Rejected(message: string)

  datatype Trace = Trace(outcome: Outcome, calls: nat, elapsed: int)

  function Min(a: int, b: int): int { if a < b then a else b }

  function Max(a: int, b: int): int { if a > b then a else b }

  /** The poll from call `k` on, `elapsed` milliseconds after it started. */
  function Polled(o: Options, n: Network, k: nat, elapsed: int, delay: int): Trace
    decreases Max(0, o.timeoutMs - elapsed + 1)
  {
    var now := elapsed + n.latency(k);
    match n.reply(k)
    case Found(receipt) => Trace(Got(receipt), k + 1, now)
    case Fails(message) => Trace(Rejected(message), k + 1, now)
    case Missing =>
      if now > o.timeoutMs then Trace(TimedOut, k + 1, now)
      else Polled(o, n, k + 1, now + Sleep(delay) + n.lateness(k), Min(o.maxMs, delay * 2))
  }

  method PollReceipt(o: Options, n: Network) returns (t: Trace)
    ensures t == Polled(o, n, 0, 0, o.baseMs)
  {
    var calls: nat, elapsed, delay := 0, 0, o.baseMs;
    while true
      invariant Polled(o, n, calls, elapsed, delay) == Polled(o, n, 0, 0, o.baseMs)
      decreases Max(0, o.timeoutMs - elapsed + 1)
    {
      var r := n.reply(calls);
      elapsed := elapsed + n.latency(calls);
      calls := calls + 1;
      match r {
        case Found(receipt) => return Trace(Got(receipt), calls, elapsed);
        case Fails(message) => return Trace(Rejected(message), calls, elapsed);
        case Missing =>
      }
      if elapsed > o.timeoutMs {
        return Trace(TimedOut, calls, elapsed);
      }
      elapsed := elapsed + Sleep(delay) + n.lateness(calls - 1);
      delay := Min(o.maxMs, delay * 2);
    }
  }

  // ---------- When it ends ----------

  /** The delay after call `k`, as the loop updates it. */
  function DelayAfter(o: Options, k: nat): int {
    if k == 0 then o.baseMs else Min(o.maxMs, DelayAfter(o, k - 1) * 2)
  }

  /** When call `k` is made, if all calls before it found nothing. */
  function CallTime(o: Options, n: Network, k: nat): int {
    if k == 0 then 0
    else CallTime(o, n, k - 1) + n.latency(k - 1) + Sleep(DelayAfter(o, k - 1)) + n.lateness(k - 1)
  }

  function ReplyTime(o: Options, n: Network, k: nat): int { CallTime(o, n, k) + n.latency(k) }

  /** Call `k` does not end the poll. */
  predicate GoesOn(o: Options, n: Network, k: nat) { n.reply(k).Missing? && ReplyTime(o, n, k) <= o.timeoutMs }

  function OutcomeOf(reply: Reply): Outcome {
    match reply case Found(receipt) => Got(receipt) case Fails(message) => Rejected(message) case Missing => TimedOut
  }

  /** The poll ends with the first call that answers, or that comes back empty after the timeout. */
  lemma {:induction false} EndsWithFirst(o: Options, n: Network, k: nat)
    ensures var t := Polled(o, n, k, CallTime(o, n, k), DelayAfter(o, k));
            && t.calls > k && (forall j :: k <= j < t.calls - 1 ==> GoesOn(o, n, j)) && !GoesOn(o, n, t.calls - 1)
            && t.outcome == OutcomeOf(n.reply(t.calls - 1)) && t.elapsed == ReplyTime(o, n, t.calls - 1)
    decreases Max(0, o.timeoutMs - CallTime(o, n, k) + 1)
  {
    hide Sleep;
    if GoesOn(o, n, k) {
      EndsWithFirst(o, n, k + 1);
    }
  }

  lemma {:induction false} DelayBound(o: Options, k: nat)
    ensures DelayAfter(o, k) <= Max(o.baseMs, o.maxMs)
  {
    if k > 0 {
      DelayBound(o, k - 1);
    }
  }

  /**
   * For any options the poll ends: with its first call, or within the timeout, one
   * delay and one call. Late timers add only the last lateness.
   */
  lemma EndsInTime(o: Options, n: Network)
    ensures var t := Polled(o, n, 0, 0, o.baseMs);
            && t.calls >= 1 && t.elapsed == ReplyTime(o, n, t.calls - 1)
            && (t.calls == 1 ==> t.elapsed == n.latency(0))
            && (t.calls > 1 ==> t.elapsed <= o.timeoutMs + Max(1, Max(o.baseMs, o.maxMs))
                                             + n.latency(t.calls - 1) + n.lateness(t.calls - 2))
  {
    EndsWithFirst(o, n, 0);
    var t := Polled(o, n, 0, 0, o.baseMs);
    if t.calls > 1 {
      hide Polled, Sleep;
      assert GoesOn(o, n, t.calls - 2);
      DelayBound(o, t.calls - 2);
    }
  }

  /**
   * It gives up only after the timeout, when no call found anything; a receipt found after the timeout is still
   * returned.
   */
  lemma GivesUpIff(o: Options, n: Network)
    ensures var t := Polled(o, n, 0, 0, o.baseMs);
            && (t.outcome.TimedOut? <==> forall k: nat :: k < t.calls ==> n.reply(k).Missing?)
            && (t.outcome.TimedOut? ==> t.elapsed > o.timeoutMs)
            && (t.outcome.Got? ==> n.reply(t.calls - 1) == Found(t.outcome.receipt)
                                   && forall k: nat :: k < t.calls - 1 ==> n.reply(k).Missing?)
  {
    EndsWithFirst(o, n, 0);
    hide ReplyTime, Polled;
    var t := Polled(o, n, 0, 0, o.baseMs);
    forall k: nat | k < t.calls - 1 ensures n.reply(k).Missing? {
      assert GoesOn(o, n, k);
    }
  }

  // ---------- How many calls it makes ----------

  /** The waits after the first `k` calls. */
  function Waited(o: Options, k: nat): int { if k == 0 then 0 else Waited(o, k - 1) + Sleep(DelayAfter(o, k - 1)) }

  lemma {:induction false} CallsSpread(o: Options, n: Network, k: nat)
    ensures CallTime(o, n, k) >= Waited(o, k)
  {
    if k > 0 {
      hide Sleep, DelayAfter;
      CallsSpread(o, n, k - 1);
    }
  }

  /** All waits but the last fit in the timeout. */
  lemma CallsAreBounded(o: Options, n: Network)
    ensures var t := Polled(o, n, 0, 0, o.baseMs);
            t.calls >= 2 ==> Waited(o, t.calls - 2) <= o.timeoutMs
  {
    EndsWithFirst(o, n, 0);
    var t := Polled(o, n, 0, 0, o.baseMs);
    if t.calls >= 2 {
      hide Polled;
      assert GoesOn(o, n, t.calls - 2);
      CallsSpread(o, n, t.calls - 2);
    }
  }

  /** Delays that a timer takes as they are. */
  predicate Regular(o: Options) { 1 <= o.baseMs <= MAX_TIMER && 1 <= o.maxMs <= MAX_TIMER }

  /** The first delay doubled `k` times, without the cap: baseMs * 2^k. */
  function Doubled(o: Options, k: nat): int { if k == 0 then o.baseMs else 2 * Doubled(o, k - 1) }

  lemma {:induction false} DoublingGrows(o: Options, j: nat, k: nat)
    requires Regular(o) && j <= k
    ensures 1 <= o.baseMs <= Doubled(o, j) <= Doubled(o, k)
    decreases j + k
  {
    if j < k {
      DoublingGrows(o, j, k - 1);
    } else if k > 0 {
      DoublingGrows(o, j - 1, k - 1);
    }
  }

  /** The delays double from the first one on until they reach the cap. */
  lemma {:induction false} DelayDoubles(o: Options, k: nat)
    requires Regular(o) && k >= 1
    ensures DelayAfter(o, k) == Min(o.maxMs, Doubled(o, k))
  {
    if k == 1 {
      assert DelayAfter(o, 0) == o.baseMs == Doubled(o, 0);
    } else {
      DelayDoubles(o, k - 1);
    }
  }

  /** Below the cap the waits add up to the geometric sum baseMs * (2^k - 1). */
  lemma {:induction false} WaitedDoubling(o: Options, k: nat)
    requires Regular(o) && (k <= 1 || Doubled(o, k - 1) <= o.maxMs)
    ensures Waited(o, k) == Doubled(o, k) - o.baseMs
  {
    if k >= 2 {
      DoublingGrows(o, k - 2, k - 1);
      DelayDoubles(o, k - 1);
      WaitedDoubling(o, k - 1);
    } else if k == 1 {
      assert Waited(o, 0) == 0 && DelayAfter(o, 0) == o.baseMs == Doubled(o, 0);
    }
  }

  /** Once the doubling has passed the cap, each wait is the cap. */
  lemma {:induction false} WaitedAtCap(o: Options, m: nat, k: nat)
    requires Regular(o) && 1 <= m <= k && Doubled(o, m) >= o.maxMs
    ensures Waited(o, k) == Waited(o, m) + (k - m) * o.maxMs
    decreases k
  {
    if m < k {
      hide DelayAfter, Doubled;
      WaitedAtCap(o, m, k - 1);
      DelayDoubles(o, k - 1);
      DoublingGrows(o, m, k - 1);
      assert (k - m) * o.maxMs == (k - 1 - m) * o.maxMs + o.maxMs;
    }
  }

  /**
   * The number of calls grows with the logarithm of the timeout while the delays
   * double, and then by one for each further delay of the cap.
   */
  lemma CallsFollowDoubling(o: Options, n: Network, m: nat)
    requires Regular(o) && 1 <= m && (m == 1 || Doubled(o, m - 1) <= o.maxMs) && Doubled(o, m) >= o.maxMs
    ensures var t := Polled(o, n, 0, 0, o.baseMs);
            && (2 <= t.calls <= m + 2 ==> Doubled(o, t.calls - 2) - o.baseMs <= o.timeoutMs)
            && (t.calls > m + 2 ==> Doubled(o, m) - o.baseMs + (t.calls - 2 - m) * o.maxMs <= o.timeoutMs)
  {
    CallsAreBounded(o, n);
    hide Polled, DelayAfter, Doubled, Waited;
    var calls := Polled(o, n, 0, 0, o.baseMs).calls;
    if 2 <= calls <= m + 2 {
      var k := calls - 2;
      if k >= 2 {
        DoublingGrows(o, k - 1, m - 1);
      }
      WaitedDoubling(o, k);
    } else if calls > m + 2 {
      WaitedDoubling(o, m);
      WaitedAtCap(o, m, calls - 2);
    }
  }
}
