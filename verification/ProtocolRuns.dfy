/** Any interleaving of calls, timer ticks and failures of the request pipeline. */
module ProtocolRuns {
  import opened Wrappers
  import opened Utf16
  import opened Json
  import opened Canonicalization
  import opened CanonicalForm
  import opened JsonRoundTrip
  import opened Did
  import opened Protocol
  import NonceStore

  // ---------- Rows and the calls that saved them ----------

  predicate MayHaveUsage(p: Phase) {
    p.Signing? || p.SavingReceipt? || p.Completed?
    || (p.Failed? && (p.stage.AtUsage? || p.stage.AtSigning? || p.stage.AtReceipt?))
  }

  predicate MayHaveReceipt(p: Phase) { p.Completed? || (p.Failed? && p.stage.AtReceipt?) }

  /** Usage row `k` is the one of this call. */
  predicate UsageAt(s: State, call: nat, k: nat) { k < |s.usage| && s.usage[k].request == call }

  /** The row says what the request of its call was. */
  predicate TrueUsage(s: State, u: UsageRecord) {
    u.request < |s.arrivals| == |s.phases| && MayHaveUsage(s.phases[u.request])
    && var dto := s.arrivals[u.request].dto;
       u.sessionId == dto.sessionId && u.agentId == dto.agentToId
       && u.metrics.bytesIn == |Print(dto.requestPayload)| && u.metrics.tokensUsed == Tokens(u.metrics.bytesIn)
  }

  /** The receipt bills the usage row of its own call, which was saved before it. */
  predicate Bills(s: State, rc: Receipt, k: nat) {
    k < rc.usageBefore <= |s.usage| && s.usage[k].request == rc.request && s.usage[k].sessionId == rc.sessionId
    && s.usage[k].metrics == rc.metrics && rc.priceComputed == Price(rc.metrics)
  }

  predicate BillsSome(s: State, rc: Receipt) { exists k :: 0 <= k < rc.usageBefore && Bills(s, rc, k) }

  predicate TrueReceipt(s: State, rc: Receipt) {
    rc.request < |s.arrivals| == |s.phases| && MayHaveReceipt(s.phases[rc.request])
    && rc.requestHash == RequestHash(s.arrivals[rc.request].dto)
    && BillsSome(s, rc)
  }

  predicate DistinctUsage(usage: seq<UsageRecord>) {
    forall i, j :: 0 <= i < j < |usage| ==> usage[i].request != usage[j].request
  }

  predicate DistinctReceipts(receipts: seq<Receipt>) {
    forall i, j :: 0 <= i < j < |receipts| ==> receipts[i].request != receipts[j].request
  }

  predicate HasReceipt(receipts: seq<Receipt>, request: nat) {
    exists j :: 0 <= j < |receipts| && receipts[j].request == request
  }

  /** Between the two saves a call carries the metrics of the row it saved. */
  predicate Carries(s: State, call: nat, metrics: UsageMetrics) {
    exists k :: 0 <= k < |s.usage| && UsageAt(s, call, k) && s.usage[k].metrics == metrics
  }

  predicate PhaseOk(s: State, call: nat)
    requires call < |s.phases| == |s.arrivals|
  {
    var p := s.phases[call];
    && (p.RecordingUsage? ==> p.metrics.bytesIn == |Print(s.arrivals[call].dto.requestPayload)|
                              && p.metrics.tokensUsed == Tokens(p.metrics.bytesIn))
    && (p.Signing? || p.SavingReceipt? ==> Carries(s, call, p.metrics))
    && (p.Completed? ==> HasReceipt(s.receipts, call))
    && (p == Failed(AtNonce) <==> !s.arrivals[call].accepted)
  }

  predicate Inv(s: State) {
    && |s.phases| == |s.arrivals|
    && DistinctUsage(s.usage) && DistinctReceipts(s.receipts)
    && (forall k :: 0 <= k < |s.usage| ==> TrueUsage(s, s.usage[k]))
    && (forall j :: 0 <= j < |s.receipts| ==> TrueReceipt(s, s.receipts[j]))
    && (forall i :: 0 <= i < |s.phases| ==> PhaseOk(s, i))
  }

  /** A state in which nothing was taken away and only call `i` went on. */
  predicate Extends(s: State, t: State, i: nat) {
    && |s.phases| == |s.arrivals| && |t.phases| == |t.arrivals|
    && s.usage <= t.usage && s.receipts <= t.receipts && s.arrivals <= t.arrivals && |s.phases| <= |t.phases|
    && (forall c :: 0 <= c < |s.phases| && c != i ==> t.phases[c] == s.phases[c])
    && (i < |s.phases| ==> (MayHaveUsage(s.phases[i]) ==> MayHaveUsage(t.phases[i]))
                           && (MayHaveReceipt(s.phases[i]) ==> MayHaveReceipt(t.phases[i])))
  }

  lemma ExtendsKeepsUsage(s: State, t: State, i: nat, u: UsageRecord)
    requires Extends(s, t, i) && TrueUsage(s, u)
    ensures TrueUsage(t, u)
  {
    hide MayHaveUsage, Print, Tokens;
  }

  lemma ExtendsKeepsReceipt(s: State, t: State, i: nat, rc: Receipt)
    requires Extends(s, t, i) && TrueReceipt(s, rc)
    ensures TrueReceipt(t, rc)
  {
    hide MayHaveReceipt, RequestHash, Price;
    var k :| 0 <= k < rc.usageBefore && Bills(s, rc, k);
    assert Bills(t, rc, k);
  }

  lemma ExtendsKeepsPhase(s: State, t: State, i: nat, c: nat)
    requires Extends(s, t, i) && c < |s.phases| && c != i && PhaseOk(s, c)
    ensures PhaseOk(t, c)
  {
    hide Print, Tokens;
    var p := s.phases[c];
    if p.Signing? || p.SavingReceipt? {
      var k :| 0 <= k < |s.usage| && UsageAt(s, c, k) && s.usage[k].metrics == p.metrics;
      assert UsageAt(t, c, k);
    } else if p.Completed? {
      var j :| 0 <= j < |s.receipts| && s.receipts[j].request == c;
      assert t.receipts[j].request == c;
    }
  }

  /** It is enough to look at the new rows and at the call that went on. */
  lemma ExtendsKeeps(s: State, t: State, i: nat)
    requires Inv(s) && Extends(s, t, i)
    requires DistinctUsage(t.usage) && DistinctReceipts(t.receipts)
    requires forall k :: |s.usage| <= k < |t.usage| ==> TrueUsage(t, t.usage[k])
    requires forall j :: |s.receipts| <= j < |t.receipts| ==> TrueReceipt(t, t.receipts[j])
    requires forall c :: 0 <= c < |t.phases| && (c == i || c >= |s.phases|) ==> PhaseOk(t, c)
    ensures Inv(t)
  {
    hide TrueUsage, TrueReceipt, PhaseOk, Extends, DistinctUsage, DistinctReceipts;
    ExtendsShape(s, t, i);
    forall k | 0 <= k < |t.usage| ensures TrueUsage(t, t.usage[k]) {
      if k < |s.usage| {
        ExtendsKeepsUsage(s, t, i, s.usage[k]);
      }
    }
    forall j | 0 <= j < |t.receipts| ensures TrueReceipt(t, t.receipts[j]) {
      if j < |s.receipts| {
        ExtendsKeepsReceipt(s, t, i, s.receipts[j]);
      }
    }
    forall c | 0 <= c < |t.phases| ensures PhaseOk(t, c) {
      if c < |s.phases| && c != i {
        ExtendsKeepsPhase(s, t, i, c);
      }
    }
  }

  lemma ExtendsShape(s: State, t: State, i: nat)
    requires Extends(s, t, i)
    ensures |s.phases| == |s.arrivals| && |t.phases| == |t.arrivals| && s.usage <= t.usage && s.receipts <= t.receipts
    ensures |s.phases| <= |t.phases|
  {
  }

  lemma ArriveKeeps(windowMs: int, s: State, e: Event)
    requires Inv(s) && Step(windowMs, s, e).Some? && (e.Arrive? || e.TimerTick?)
    ensures Inv(Step(windowMs, s, e).value)
  {
    hide Check, NonceStore.Step, Validated, TrueUsage, TrueReceipt, Print, Tokens;
    var t := Step(windowMs, s, e).value;
    assert Extends(s, t, |t.phases|);
    ExtendsKeeps(s, t, |t.phases|);
  }

  lemma PolicyKeeps(windowMs: int, s: State, e: Event)
    requires Inv(s) && Step(windowMs, s, e).Some? && (e.PolicyAnswers? || e.PolicyFails?)
    ensures Inv(Step(windowMs, s, e).value)
  {
    hide MayCall, TrueUsage, TrueReceipt, Print, Tokens, ResultPayload;
    var t := Step(windowMs, s, e).value;
    assert PhaseOk(s, e.call);
    assert Extends(s, t, e.call);
    ExtendsKeeps(s, t, e.call);
  }

  /** A call that is about to save its usage has no usage row yet. */
  lemma FirstUsage(s: State, call: nat)
    requires Inv(s) && call < |s.phases| && s.phases[call].RecordingUsage?
    ensures forall k :: 0 <= k < |s.usage| ==> s.usage[k].request != call
  {
    hide Print, Tokens, PhaseOk, TrueReceipt;
    forall k | 0 <= k < |s.usage| ensures s.usage[k].request != call {
      assert TrueUsage(s, s.usage[k]);
    }
  }

  lemma UsageSaveKeeps(windowMs: int, s: State, call: nat, save: Save)
    requires Inv(s) && Step(windowMs, s, UsageSave(call, save)).Some?
    ensures Inv(Step(windowMs, s, UsageSave(call, save)).value)
  {
    hide TrueReceipt, Print, Tokens;
    var t := Step(windowMs, s, UsageSave(call, save)).value;
    FirstUsage(s, call);
    assert PhaseOk(s, call);
    assert Extends(s, t, call);
    var m := s.phases[call].metrics;
    var n := |s.usage|;
    if !save.NotSaved? {
      assert t.usage[n] == UsageOf(s.arrivals[call].dto, call, m);
      assert TrueUsage(t, t.usage[n]);
      assert UsageAt(t, call, n) && t.usage[n].metrics == m;
    }
    hide TrueUsage;
    assert PhaseOk(t, call);
    ExtendsKeeps(s, t, call);
  }

  lemma SignKeeps(windowMs: int, s: State, call: nat, ok: bool)
    requires Inv(s) && Step(windowMs, s, Sign(call, ok)).Some?
    ensures Inv(Step(windowMs, s, Sign(call, ok)).value)
  {
    hide TrueReceipt, TrueUsage, Print, Tokens;
    var t := Step(windowMs, s, Sign(call, ok)).value;
    assert Extends(s, t, call);
    var m := s.phases[call].metrics;
    assert PhaseOk(s, call);
    var k :| 0 <= k < |s.usage| && UsageAt(s, call, k) && s.usage[k].metrics == m;
    assert UsageAt(t, call, k);
    ExtendsKeeps(s, t, call);
  }

  lemma FirstReceipt(s: State, call: nat)
    requires Inv(s) && call < |s.phases| && s.phases[call].SavingReceipt?
    ensures forall j :: 0 <= j < |s.receipts| ==> s.receipts[j].request != call
  {
    hide Print, Tokens, PhaseOk, TrueUsage, RequestHash, Bills;
    forall j | 0 <= j < |s.receipts| ensures s.receipts[j].request != call {
      assert TrueReceipt(s, s.receipts[j]);
    }
  }

  lemma ReceiptSaveShape(windowMs: int, s: State, call: nat, save: Save)
    requires Inv(s) && Step(windowMs, s, ReceiptSave(call, save)).Some?
    ensures call < |s.phases| == |s.arrivals| && s.phases[call].SavingReceipt?
    ensures var p, dto := s.phases[call], s.arrivals[call].dto;
            Step(windowMs, s, ReceiptSave(call, save)).value
            == s.(receipts := s.receipts
                    + (if save.NotSaved? then [] else [ReceiptOf(dto, call, |s.usage|, p.metrics, p.resultHash)]),
                  phases := s.phases[call := if save.Saved? then Completed else Failed(AtReceipt)])
  {
    hide ReceiptOf, TrueReceipt, TrueUsage, PhaseOk;
  }

  lemma ReceiptSaveKeeps(windowMs: int, s: State, call: nat, save: Save)
    requires Inv(s) && Step(windowMs, s, ReceiptSave(call, save)).Some?
    ensures Inv(Step(windowMs, s, ReceiptSave(call, save)).value)
  {
    hide Print, Tokens, RequestHash, Price;
    var t := Step(windowMs, s, ReceiptSave(call, save)).value;
    ReceiptSaveShape(windowMs, s, call, save);
    FirstReceipt(s, call);
    assert PhaseOk(s, call);
    hide Step, PhaseOk;
    var m, n := s.phases[call].metrics, |s.receipts|;
    var k :| 0 <= k < |s.usage| && UsageAt(s, call, k) && s.usage[k].metrics == m;
    if !save.NotSaved? {
      assert TrueUsage(s, s.usage[k]);
      assert Bills(t, t.receipts[n], k);
      assert TrueReceipt(t, t.receipts[n]);
      assert t.receipts[n].request == call;
    }
    hide TrueReceipt, TrueUsage;
    PhaseOkLater(t, call);
    assert Extends(s, t, call);
    ExtendsKeeps(s, t, call);
  }

  lemma PhaseOkLater(t: State, call: nat)
    requires call < |t.phases| == |t.arrivals| && t.arrivals[call].accepted && MayHaveReceipt(t.phases[call])
    requires t.phases[call].Completed? ==> HasReceipt(t.receipts, call)
    ensures PhaseOk(t, call)
  {
  }

  lemma StepKeeps(windowMs: int, s: State, e: Event)
    requires Inv(s) && Step(windowMs, s, e).Some?
    ensures Inv(Step(windowMs, s, e).value)
  {
    hide Inv, Step;
    match e
    case UsageSave(call, save) => UsageSaveKeeps(windowMs, s, call, save);
    case Sign(call, ok) => SignKeeps(windowMs, s, call, ok);
    case ReceiptSave(call, save) => ReceiptSaveKeeps(windowMs, s, call, save);
    case PolicyAnswers(_, _, _, _) => PolicyKeeps(windowMs, s, e);
    case PolicyFails(_) => PolicyKeeps(windowMs, s, e);
    case _ => ArriveKeeps(windowMs, s, e);
  }

  function Run(windowMs: int, s: State, run: seq<Event>): Option<State>
    decreases |run|
  {
    if run == [] then Some(s)
    else match Step(windowMs, s, run[0]) case None => None case Some(next) => Run(windowMs, next, run[1..])
  }

  lemma {:induction false} RunKeeps(windowMs: int, s: State, run: seq<Event>)
    requires Inv(s) && Run(windowMs, s, run).Some?
    ensures Inv(Run(windowMs, s, run).value)
    decreases |run|
  {
    if run != [] {
      hide Inv, Step;
      StepKeeps(windowMs, s, run[0]);
      RunKeeps(windowMs, Step(windowMs, s, run[0]).value, run[1..]);
    }
  }

  // ---------- Receipts against usage ----------

  /**
   * In every interleaving: each receipt bills its own usage row, saved before it,
   * with the same session, tokens and bytes and the price of those tokens; no two
   * receipts share a row, and every row says what the request of its call was.
   */
  lemma ReceiptsAreMetered(windowMs: int, clock: int, run: seq<Event>)
    requires Run(windowMs, Initial(clock), run).Some?
    ensures var s := Run(windowMs, Initial(clock), run).value;
            && (forall j :: 0 <= j < |s.receipts| ==> BillsSome(s, s.receipts[j]))
            && DistinctUsage(s.usage) && DistinctReceipts(s.receipts)
            && (forall k :: 0 <= k < |s.usage| ==> TrueUsage(s, s.usage[k]))
            && (forall j :: 0 <= j < |s.receipts| ==> TrueReceipt(s, s.receipts[j]))
  {
    RunKeeps(windowMs, Initial(clock), run);
    var s := Run(windowMs, Initial(clock), run).value;
    forall j | 0 <= j < |s.receipts| ensures BillsSome(s, s.receipts[j]) {
      assert TrueReceipt(s, s.receipts[j]);
    }
  }

  /** A call that was replayed, denied, or stopped in the policy check, or that is still waiting for it. */
  predicate Unmetered(p: Phase) {
    p.CheckingPolicy? || p.RecordingUsage? || p == Failed(AtNonce) || p == Failed(AtPolicy)
  }

  lemma StoppedCallsLeaveNothing(windowMs: int, clock: int, run: seq<Event>, call: nat)
    requires Run(windowMs, Initial(clock), run).Some?
    requires var s := Run(windowMs, Initial(clock), run).value; call < |s.phases| && Unmetered(s.phases[call])
    ensures var s := Run(windowMs, Initial(clock), run).value;
            && (forall k :: 0 <= k < |s.usage| ==> s.usage[k].request != call)
            && (forall j :: 0 <= j < |s.receipts| ==> s.receipts[j].request != call)
  {
    ReceiptsAreMetered(windowMs, clock, run);
    hide Run, Print, Tokens, BillsSome, RequestHash, DistinctUsage, DistinctReceipts;
    var s := Run(windowMs, Initial(clock), run).value;
    forall k | 0 <= k < |s.usage| ensures s.usage[k].request != call {
      assert TrueUsage(s, s.usage[k]);
    }
    forall j | 0 <= j < |s.receipts| ensures s.receipts[j].request != call {
      assert TrueReceipt(s, s.receipts[j]);
    }
  }

  /** A completed call has left a receipt, and with it the usage row that the receipt bills. */
  lemma CompletedCallsLeaveBoth(windowMs: int, clock: int, run: seq<Event>, call: nat) returns (j: nat, k: nat)
    requires Run(windowMs, Initial(clock), run).Some?
    requires var s := Run(windowMs, Initial(clock), run).value; call < |s.phases| && s.phases[call].Completed?
    ensures var s := Run(windowMs, Initial(clock), run).value;
            j < |s.receipts| && s.receipts[j].request == call && Bills(s, s.receipts[j], k)
  {
    RunKeeps(windowMs, Initial(clock), run);
    var s := Run(windowMs, Initial(clock), run).value;
    assert PhaseOk(s, call);
    j :| 0 <= j < |s.receipts| && s.receipts[j].request == call;
    assert TrueReceipt(s, s.receipts[j]);
    k :| 0 <= k < s.receipts[j].usageBefore && Bills(s, s.receipts[j], k);
  }

  // ---------- Billed against metered ----------

  function Billed(receipts: seq<Receipt>, sessions: set<Text>): nat {
    if receipts == [] then 0
    else
      var last := receipts[|receipts| - 1];
      Billed(receipts[..|receipts| - 1], sessions) + if last.sessionId in sessions then last.priceComputed else 0
  }

  function Metered(usage: seq<UsageRecord>, sessions: set<Text>): nat {
    if usage == [] then 0
    else (if usage[0].sessionId in sessions then usage[0].metrics.tokensUsed else 0) + Metered(usage[1..], sessions)
  }

  /** The tokens of the usage rows whose call got a receipt. */
  function MeteredWithReceipt(usage: seq<UsageRecord>, receipts: seq<Receipt>, sessions: set<Text>): nat {
    if usage == [] then 0
    else
      (if usage[0].sessionId in sessions && HasReceipt(receipts, usage[0].request) then usage[0].metrics.tokensUsed
       else 0)
      + MeteredWithReceipt(usage[1..], receipts, sessions)
  }

  /** Every usage row of these sessions has its receipt. */
  predicate AllReceipted(usage: seq<UsageRecord>, receipts: seq<Receipt>, sessions: set<Text>) {
    forall k :: 0 <= k < |usage| && usage[k].sessionId in sessions ==> HasReceipt(receipts, usage[k].request)
  }

  /** A printed payload is never empty, so every usage row has a token. */
  lemma TokensArePositive(s: State, u: UsageRecord)
    requires TrueUsage(s, u)
    ensures u.metrics.tokensUsed >= 1
  {
    hide Print;
    PrintStart(s.arrivals[u.request].dto.requestPayload);
  }

  lemma {:induction false} WithReceiptIsPart(usage: seq<UsageRecord>, receipts: seq<Receipt>, sessions: set<Text>)
    requires forall k :: 0 <= k < |usage| ==> usage[k].metrics.tokensUsed >= 1
    ensures MeteredWithReceipt(usage, receipts, sessions) <= Metered(usage, sessions)
    ensures MeteredWithReceipt(usage, receipts, sessions) == Metered(usage, sessions)
       <==> AllReceipted(usage, receipts, sessions)
  {
    if usage != [] {
      hide HasReceipt;
      assert forall k :: 0 < k < |usage| ==> usage[k] == usage[1..][k - 1];
      assert forall k :: 0 <= k < |usage[1..]| ==> usage[1..][k] == usage[k + 1];
      WithReceiptIsPart(usage[1..], receipts, sessions);
    }
  }

  lemma HasReceiptOneMore(receipts: seq<Receipt>, rc: Receipt, request: nat)
    ensures HasReceipt(receipts + [rc], request) <==> HasReceipt(receipts, request) || rc.request == request
  {
    var more := receipts + [rc];
    assert more[|receipts|] == rc;
    assert forall j :: 0 <= j < |receipts| ==> more[j] == receipts[j];
  }

  /** One more receipt brings in exactly the row of its call. */
  lemma {:induction false} ReceiptBringsIn(usage: seq<UsageRecord>, receipts: seq<Receipt>, rc: Receipt,
                                           sessions: set<Text>)
    requires DistinctUsage(usage) && !HasReceipt(receipts, rc.request)
    ensures (forall k :: 0 <= k < |usage| ==> usage[k].request != rc.request)
            ==> MeteredWithReceipt(usage, receipts + [rc], sessions) == MeteredWithReceipt(usage, receipts, sessions)
    ensures forall k :: 0 <= k < |usage| && usage[k].request == rc.request ==>
              MeteredWithReceipt(usage, receipts + [rc], sessions) == MeteredWithReceipt(usage, receipts, sessions)
                + (if usage[k].sessionId in sessions then usage[k].metrics.tokensUsed else 0)
  {
    if usage != [] {
      hide HasReceipt;
      HasReceiptOneMore(receipts, rc, usage[0].request);
      assert forall k :: 0 <= k < |usage[1..]| ==> usage[1..][k] == usage[k + 1];
      ReceiptBringsIn(usage[1..], receipts, rc, sessions);
    }
  }

  /** The receipt has a usage row of its own call, session and price. */
  predicate Covers(u: UsageRecord, rc: Receipt) {
    u.request == rc.request && u.sessionId == rc.sessionId && rc.priceComputed == u.metrics.tokensUsed * PRICE_PER_TOKEN
  }

  predicate CoveredBy(usage: seq<UsageRecord>, rc: Receipt) { exists k :: 0 <= k < |usage| && Covers(usage[k], rc) }

  predicate AllCovered(usage: seq<UsageRecord>, receipts: seq<Receipt>) {
    forall j :: 0 <= j < |receipts| ==> CoveredBy(usage, receipts[j])
  }

  lemma {:induction false} BilledIsMetered(usage: seq<UsageRecord>, receipts: seq<Receipt>, sessions: set<Text>)
    requires DistinctUsage(usage) && DistinctReceipts(receipts) && AllCovered(usage, receipts)
    ensures Billed(receipts, sessions) == MeteredWithReceipt(usage, receipts, sessions) * PRICE_PER_TOKEN
    decreases |receipts|
  {
    if receipts == [] {
      NoReceipts(usage, sessions);
    } else {
      var n := |receipts| - 1;
      var shorter, last := receipts[..n], receipts[n];
      assert receipts == shorter + [last];
      BilledIsMetered(usage, shorter, sessions);
      assert CoveredBy(usage, receipts[n]);
      var k :| 0 <= k < |usage| && Covers(usage[k], receipts[n]);
      assert !HasReceipt(shorter, last.request);
      ReceiptBringsIn(usage, shorter, last, sessions);
    }
  }

  lemma {:induction false} NoReceipts(usage: seq<UsageRecord>, sessions: set<Text>)
    ensures MeteredWithReceipt(usage, [], sessions) == 0
  {
    if usage != [] {
      NoReceipts(usage[1..], sessions);
    }
  }

  lemma BillsCovers(s: State, rc: Receipt)
    requires BillsSome(s, rc)
    ensures CoveredBy(s.usage, rc)
  {
    var k :| 0 <= k < rc.usageBefore && Bills(s, rc, k);
    assert Covers(s.usage[k], rc);
  }

  /**
   * For any sessions, what is billed is the price of exactly the metered tokens whose call
   * got a receipt: never more than what was metered, and all of it exactly when every
   * usage row of those sessions has its receipt.
   */
  lemma BilledNeverExceedsMetered(windowMs: int, clock: int, run: seq<Event>, sessions: set<Text>)
    requires Run(windowMs, Initial(clock), run).Some?
    ensures var s := Run(windowMs, Initial(clock), run).value;
            && Billed(s.receipts, sessions) == MeteredWithReceipt(s.usage, s.receipts, sessions) * PRICE_PER_TOKEN
            && Billed(s.receipts, sessions) <= Metered(s.usage, sessions) * PRICE_PER_TOKEN
            && (Billed(s.receipts, sessions) == Metered(s.usage, sessions) * PRICE_PER_TOKEN
                <==> AllReceipted(s.usage, s.receipts, sessions))
  {
    ReceiptsAreMetered(windowMs, clock, run);
    var s := Run(windowMs, Initial(clock), run).value;
    hide Run, TrueUsage, TrueReceipt, DistinctUsage, DistinctReceipts, BillsSome, CoveredBy;
    hide HasReceipt, Billed, Metered, MeteredWithReceipt, AllReceipted;
    forall k | 0 <= k < |s.usage| ensures s.usage[k].metrics.tokensUsed >= 1 {
      TokensArePositive(s, s.usage[k]);
    }
    forall j | 0 <= j < |s.receipts| ensures CoveredBy(s.usage, s.receipts[j]) {
      BillsCovers(s, s.receipts[j]);
    }
    BilledIsMetered(s.usage, s.receipts, sessions);
    WithReceiptIsPart(s.usage, s.receipts, sessions);
  }

  // ---------- Receipts against requests ----------

  /** Two requests have one hash exactly when their fields and the visible meanings of their payloads are the same. */
  lemma SameHashSameRequest(a: Dto, b: Dto)
    requires Validated(a) && Validated(b)
    ensures RequestHash(a) == RequestHash(b)
       <==> a.agentFromId == b.agentFromId && a.agentToId == b.agentToId && a.sessionId == b.sessionId
            && ShownNumber(a.maxBudget) == ShownNumber(b.maxBudget)
            && a.policyDigest == b.policyDigest && a.nonce == b.nonce
            && Visible(MeaningOf(a.requestPayload)) == Visible(MeaningOf(b.requestPayload))
  {
    hide Visible, MeaningOf, ShownNumber, CanonicalizeSignedRequest;
    CanonicalIff(EnvelopeOf(a), EnvelopeOf(b));
  }

  /** Two receipts with one request hash come from calls that asked for the same. */
  lemma SameHashSameCall(windowMs: int, clock: int, run: seq<Event>, i: nat, j: nat)
    requires Run(windowMs, Initial(clock), run).Some?
    requires var s := Run(windowMs, Initial(clock), run).value;
             i < |s.receipts| && j < |s.receipts| && s.receipts[i].requestHash == s.receipts[j].requestHash
    ensures var s := Run(windowMs, Initial(clock), run).value;
            var a, b := s.receipts[i].request, s.receipts[j].request;
            a < |s.arrivals| && b < |s.arrivals| && s.arrivals[a].dto.sessionId == s.arrivals[b].dto.sessionId
            && s.arrivals[a].dto.agentFromId == s.arrivals[b].dto.agentFromId
            && s.arrivals[a].dto.agentToId == s.arrivals[b].dto.agentToId
            && s.arrivals[a].dto.nonce == s.arrivals[b].dto.nonce
            && Visible(MeaningOf(s.arrivals[a].dto.requestPayload))
               == Visible(MeaningOf(s.arrivals[b].dto.requestPayload))
  {
    ReceiptsAreMetered(windowMs, clock, run);
    RunSpaced(windowMs, Initial(clock), run);
    var s := Run(windowMs, Initial(clock), run).value;
    assert TrueReceipt(s, s.receipts[i]) && TrueReceipt(s, s.receipts[j]);
    hide Run, TrueUsage, Visible, MeaningOf, RequestHash, Validated, Spaced, BillsSome, LogOf, NonceStore.Remembers;
    SameHashSameRequest(s.arrivals[s.receipts[i].request].dto, s.arrivals[s.receipts[j].request].dto);
  }

  // ---------- Replays ----------

  predicate SamePair(a: Dto, b: Dto) { a.agentFromId == b.agentFromId && a.nonce == b.nonce }

  /** The log of the nonce acceptances behind the arrivals. */
  function LogOf(arrivals: seq<Arrival>): seq<NonceStore.Acceptance> {
    if arrivals == [] then []
    else
      var last := arrivals[|arrivals| - 1];
      var before := LogOf(arrivals[..|arrivals| - 1]);
      if last.accepted && Guarded(last.dto) then
        before + [NonceStore.Acceptance(last.dto.agentFromId, last.dto.nonce.text, last.at)]
      else before
  }

  lemma {:induction false} LoggedIffAccepted(arrivals: seq<Arrival>, i: nat)
    requires i < |arrivals| && arrivals[i].accepted && Guarded(arrivals[i].dto)
    ensures var a := arrivals[i];
            NonceStore.Acceptance(a.dto.agentFromId, a.dto.nonce.text, a.at) in LogOf(arrivals)
    decreases |arrivals|
  {
    if i < |arrivals| - 1 {
      LoggedIffAccepted(arrivals[..|arrivals| - 1], i);
    }
  }

  predicate Spaced(arrivals: seq<Arrival>, windowMs: int) {
    forall i, j :: 0 <= i < j < |arrivals| && arrivals[i].accepted && arrivals[j].accepted
                   && Guarded(arrivals[i].dto) && SamePair(arrivals[i].dto, arrivals[j].dto)
                   ==> arrivals[j].at - arrivals[i].at > windowMs
  }

  predicate AllValidated(arrivals: seq<Arrival>) { forall i :: 0 <= i < |arrivals| ==> Validated(arrivals[i].dto) }

  ghost predicate NonceInv(windowMs: int, s: State) {
    NonceStore.Remembers(NonceStore.DidPairs(), windowMs, s.entries, LogOf(s.arrivals), s.clock)
    && Spaced(s.arrivals, windowMs) && AllValidated(s.arrivals)
  }

  /** The new arrival, accepted or not, keeps the spacing when acceptance means that its pair is not in the window. */
  lemma NewIsSpaced(windowMs: int, arrivals: seq<Arrival>, a: Arrival, cutoff: int)
    requires Spaced(arrivals, windowMs) && cutoff <= a.at - windowMs
    requires a.accepted && Guarded(a.dto) ==>
               !NonceStore.InWindow(LogOf(arrivals), a.dto.agentFromId, a.dto.nonce.text, cutoff)
    ensures Spaced(arrivals + [a], windowMs)
  {
    hide NonceStore.InWindow, LogOf;
    if a.accepted && Guarded(a.dto) {
      forall i | 0 <= i < |arrivals| && arrivals[i].accepted && SamePair(arrivals[i].dto, a.dto)
        ensures a.at - arrivals[i].at > windowMs
      {
        var b := arrivals[i];
        LoggedIffAccepted(arrivals, i);
        NotInWindow(LogOf(arrivals), NonceStore.Acceptance(b.dto.agentFromId, b.dto.nonce.text, b.at), cutoff);
      }
    }
  }

  lemma LogOfAppend(arrivals: seq<Arrival>, a: Arrival)
    ensures var logged := a.accepted && Guarded(a.dto);
            LogOf(arrivals + [a]) == LogOf(arrivals)
              + if logged then [NonceStore.Acceptance(a.dto.agentFromId, a.dto.nonce.text, a.at)] else []
  {
    assert (arrivals + [a])[..|arrivals|] == arrivals;
    assert LogOf(arrivals) + [] == LogOf(arrivals);
  }

  lemma ArrivalSpaced(windowMs: int, s: State, e: Event)
    requires e.Arrive? && NonceInv(windowMs, s) && Step(windowMs, s, e).Some?
    ensures NonceInv(windowMs, Step(windowMs, s, e).value)
  {
    var pairs, log := NonceStore.DidPairs(), LogOf(s.arrivals);
    var checked := Check(windowMs, s.entries, e);
    var a := Arrival(e.dto, checked.1, e.storeAt);
    ArriveShape(windowMs, s, e);
    NonceStore.DidPairsSeparable();
    LogOfAppend(s.arrivals, a);
    hide Step, NonceStore.Step, NonceStore.LogStep, NonceStore.Remembers, NonceStore.Separable, NonceStore.InWindow;
    hide NonceStore.DidPairs, Validated, Spaced, LogOf;
    if Guarded(e.dto) {
      var asked := NonceStore.AssertFresh(e.dto.agentFromId, e.dto.nonce.text, e.evictAt, e.storeAt);
      ValidatedPair(e.dto);
      NonceStore.StepAgrees(pairs, windowMs, s.entries, log, s.clock, asked);
      LogStepSays(windowMs, log, asked);
    } else {
      NonceStore.LaterStillRemembers(pairs, windowMs, s.entries, log, s.clock, e.storeAt);
    }
    assert log + [] == log;
    NewIsSpaced(windowMs, s.arrivals, a, e.evictAt - windowMs);
  }

  lemma ArriveShape(windowMs: int, s: State, e: Event)
    requires e.Arrive? && Step(windowMs, s, e).Some?
    ensures Validated(e.dto) && s.clock <= e.evictAt <= e.storeAt
    ensures var t, checked := Step(windowMs, s, e).value, Check(windowMs, s.entries, e);
            && t.entries == checked.0 && t.clock == e.storeAt
            && t.arrivals == s.arrivals + [Arrival(e.dto, checked.1, e.storeAt)]
  {
    hide Check, Validated;
  }

  lemma ValidatedPair(dto: Dto)
    requires Validated(dto) && Guarded(dto)
    ensures (dto.agentFromId, dto.nonce.text) in NonceStore.DidPairs()
  {
    hide IsDid, WellFormed;
  }

  lemma LogStepSays(windowMs: int, log: seq<NonceStore.Acceptance>, e: NonceStore.Event)
    requires e.AssertFresh?
    ensures NonceStore.LogStep(windowMs, log, e)
         == if NonceStore.InWindow(log, e.agentId, e.nonce, e.evictAt - windowMs) then (log, NonceStore.Rejected)
            else (log + [NonceStore.Acceptance(e.agentId, e.nonce, e.storeAt)], NonceStore.Accepted)
  {
  }

  lemma NotInWindow(log: seq<NonceStore.Acceptance>, a: NonceStore.Acceptance, cutoff: int)
    requires a in log && !NonceStore.InWindow(log, a.agentId, a.nonce, cutoff)
    ensures a.at < cutoff
  {
  }

  lemma NonceStepKeeps(windowMs: int, s: State, e: Event)
    requires NonceInv(windowMs, s) && Step(windowMs, s, e).Some?
    ensures NonceInv(windowMs, Step(windowMs, s, e).value)
  {
    match e
    case Arrive(_, _, _) => ArrivalSpaced(windowMs, s, e);
    case TimerTick(at) =>
      NonceStore.DidPairsSeparable();
      hide NonceStore.Remembers, NonceStore.Separable, NonceStore.DidPairs, Validated, Spaced;
      NonceStore.StepAgrees(NonceStore.DidPairs(), windowMs, s.entries, LogOf(s.arrivals), s.clock,
                            NonceStore.TimerTick(at));
    case _ =>
      hide NonceStore.Remembers, NonceStore.DidPairs, Validated, Spaced;
  }

  lemma {:induction false} RunSpaced(windowMs: int, s: State, run: seq<Event>)
    requires NonceInv(windowMs, s) && Run(windowMs, s, run).Some?
    ensures NonceInv(windowMs, Run(windowMs, s, run).value)
    decreases |run|
  {
    if run != [] {
      hide NonceInv, Step;
      NonceStepKeeps(windowMs, s, run[0]);
      RunSpaced(windowMs, Step(windowMs, s, run[0]).value, run[1..]);
    }
  }

  /** Two metered calls with the same agent and non-empty nonce were accepted more than the window apart. */
  lemma ReplaysAreNotMetered(windowMs: int, clock: int, run: seq<Event>, j: nat, k: nat)
    requires Run(windowMs, Initial(clock), run).Some?
    requires var s := Run(windowMs, Initial(clock), run).value; j < |s.usage| && k < |s.usage|
    ensures var s := Run(windowMs, Initial(clock), run).value;
            var a, b := s.usage[j].request, s.usage[k].request;
            a < b < |s.arrivals| && Guarded(s.arrivals[a].dto) && SamePair(s.arrivals[a].dto, s.arrivals[b].dto)
            ==> s.arrivals[b].at - s.arrivals[a].at > windowMs
  {
    RunSpaced(windowMs, Initial(clock), run);
    RunKeeps(windowMs, Initial(clock), run);
    var s := Run(windowMs, Initial(clock), run).value;
    MeteredWasAccepted(s, j);
    MeteredWasAccepted(s, k);
  }

  lemma MeteredWasAccepted(s: State, k: nat)
    requires Inv(s) && k < |s.usage|
    ensures s.usage[k].request < |s.arrivals| && s.arrivals[s.usage[k].request].accepted
  {
    assert TrueUsage(s, s.usage[k]);
    assert PhaseOk(s, s.usage[k].request);
  }
}
