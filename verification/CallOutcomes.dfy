/**
 * The retried contract calls of src/modules/identity/identity.service.ts: exactly when
 * one resolves, and exactly when it is rejected although its change is on chain.
 */
module CallOutcomes {
  import opened Wrappers
  import opened AgentRegistry
  import opened Registration
  import Retry

  // ---------- What the script of an attempt does ----------

  /** The transaction would be applied to this chain. */
  predicate Lands(w: World, ours: Transaction) { Apply(w.agents, ours).Ok? }

  /** A registration lands where there is no record, the other two where the signer's record is active. */
  lemma LandsIff(w: World, ours: Transaction)
    requires Consistent(w.agents)
    ensures var id := Keccak256(ours.did);
            Lands(w, ours) <==>
              if ours.RegisterAgent? then id !in w.agents
              else id in w.agents && w.agents[id].owner == ours.sender && w.agents[id].active
  {
  }

  /** The chain that the transaction of an attempt meets. */
  function Met(script: nat -> Attempt, ours: Transaction, w: World): World {
    HappenAll(w.(attempt := w.attempt + 1), ours.did, script(w.attempt).before)
  }

  /** The chain when the attempt has met its fate, before it ends. */
  function Left(script: nat -> Attempt, ours: Transaction, w: World): World {
    Meet(Met(script, ours, w), ours, script(w.attempt).fate).0
  }

  /** The attempt's own transaction is applied and its reply arrives. */
  predicate Answers(script: nat -> Attempt, ours: Transaction, w: World) {
    var fate := script(w.attempt).fate;
    fate.Mined? && fate.lostReply.None? && Lands(Met(script, ours, w), ours)
  }

  /** The attempt's own transaction is applied and its reply is lost. */
  predicate LosesReply(script: nat -> Attempt, ours: Transaction, w: World) {
    var fate := script(w.attempt).fate;
    fate.Mined? && fate.lostReply.Some? && Lands(Met(script, ours, w), ours)
  }

  /** While the signer waits, one of its pending transactions is mined and applied. */
  predicate MinesLate(w: World, ours: Transaction, hs: seq<Happening>)
    decreases |hs|
  {
    hs != [] && (MinesPending(w, ours, hs[0]) || MinesLate(Happen(w, ours.did, hs[0]), ours, hs[1..]))
  }

  predicate MinesPending(w: World, ours: Transaction, h: Happening) {
    h.MinedLate? && h.index < |w.pending| && Lands(w, ours)
  }

  /** A transaction that an earlier attempt left pending is applied before or after the attempt's own. */
  predicate Late(script: nat -> Attempt, ours: Transaction, w: World) {
    MinesLate(w.(attempt := w.attempt + 1), ours, script(w.attempt).before)
    || MinesLate(Left(script, ours, w), ours, script(w.attempt).after)
  }

  // ---------- One attempt ----------

  lemma HappenDone(w: World, ours: Transaction, h: Happening)
    requires Inv(w, ours) && (h.Other? ==> Foreign(h.tx, ours))
    ensures Done(Happen(w, ours.did, h).agents, ours) <==> Done(w.agents, ours) || MinesPending(w, ours, h)
  {
    match h
    case Other(tx) => ForeignDone(w.agents, ours, tx);
    case MinedLate(i, timestamp) => OursDone(w, ours, timestamp);
  }

  lemma ForeignDone(agents: Agents, ours: Transaction, tx: Transaction)
    requires Consistent(agents) && Foreign(tx, ours)
    ensures Done(Commit(agents, tx), ours) <==> Done(agents, ours)
  {
    if tx.did != ours.did {
      CommitElsewhere(agents, tx, ours.did);
    }
    CommitContinues(agents, tx, Keccak256(ours.did));
  }

  lemma OursDone(w: World, ours: Transaction, timestamp: int)
    requires Inv(w, ours)
    ensures Done(Commit(w.agents, Stamped(ours, timestamp)), ours) <==> Done(w.agents, ours) || Lands(w, ours)
    ensures Apply(w.agents, Stamped(ours, timestamp)).Ok? <==> Lands(w, ours)
  {
  }

  lemma {:induction false} HappenAllDone(w: World, ours: Transaction, hs: seq<Happening>)
    requires Inv(w, ours) && ForeignOnly(hs, ours)
    ensures Done(HappenAll(w, ours.did, hs).agents, ours) <==> Done(w.agents, ours) || MinesLate(w, ours, hs)
    decreases |hs|
  {
    if hs != [] {
      hide Inv, Grows, Foreign, Done, Happen, MinesPending;
      HappenIsGood(w, ours, hs[0]);
      HappenDone(w, ours, hs[0]);
      HappenAllDone(Happen(w, ours.did, hs[0]), ours, hs[1..]);
    }
  }

  lemma MeetDone(w: World, ours: Transaction, fate: Fate)
    requires Inv(w, ours)
    ensures Done(Meet(w, ours, fate).0.agents, ours) <==> Done(w.agents, ours) || (fate.Mined? && Lands(w, ours))
    ensures Meet(w, ours, fate).1.Ok? <==> fate.Mined? && fate.lostReply.None? && Lands(w, ours)
  {
    hide Done, Lands;
    match fate
    case Mined(timestamp, _) => OursDone(w, ours, timestamp);
    case _ =>
  }

  /** The stages of an attempt keep the invariant. */
  lemma StagesAreGood(script: nat -> Attempt, ours: Transaction, w: World)
    requires Inv(w, ours) && Fair(script, ours)
    ensures var a, next := script(w.attempt), w.(attempt := w.attempt + 1);
            && ForeignOnly(a.before, ours) && ForeignOnly(a.after, ours)
            && Inv(next, ours) && Inv(Met(script, ours, w), ours) && Inv(Left(script, ours, w), ours)
            && Try(script, ours, w).0 == HappenAll(Left(script, ours, w), ours.did, a.after)
  {
    hide Grows, Meet, Foreign, Done;
    assert FairScript(script, ours, w.attempt + 1);
    var a, next := script(w.attempt), w.(attempt := w.attempt + 1);
    NextAttempt(w, ours);
    hide Inv;
    HappenAllIsGood(next, ours, a.before);
    MeetIsGood(Met(script, ours, w), ours, a.fate);
  }

  /** The change is in effect after an attempt exactly when it was before or the attempt brought it about. */
  lemma AttemptDone(script: nat -> Attempt, ours: Transaction, w: World)
    requires Inv(w, ours) && Fair(script, ours)
    ensures Try(script, ours, w).1.Ok? <==> Answers(script, ours, w)
    ensures Done(Try(script, ours, w).0.agents, ours) <==>
              Done(w.agents, ours) || Answers(script, ours, w) || LosesReply(script, ours, w) || Late(script, ours, w)
  {
    StagesAreGood(script, ours, w);
    hide Inv, Done, Lands, MinesLate, HappenAll, Meet, Fair, ForeignOnly;
    var a, next := script(w.attempt), w.(attempt := w.attempt + 1);
    HappenAllDone(next, ours, a.before);
    MeetDone(Met(script, ours, w), ours, a.fate);
    HappenAllDone(Left(script, ours, w), ours, a.after);
  }

  // ---------- The attempts of a call ----------

  /** The world before attempt `j` of the call. */
  function Before(script: nat -> Attempt, ours: Transaction, w: World, j: nat): World {
    Retry.After(Operation(script, ours), w, j)
  }

  /** Attempt `j` is made: it is allowed, and every earlier one failed transiently. */
  predicate Made(script: nat -> Attempt, ours: Transaction, w: World, j: nat) {
    j < Retry.DEFAULTS.maxAttempts
    && forall i :: 0 <= i < j ==> Retry.FailsTransiently(Operation(script, ours), Retry.IsTransientError, w, i)
  }

  lemma {:induction false} BeforeStep(script: nat -> Attempt, ours: Transaction, w: World, j: nat)
    ensures Before(script, ours, w, j + 1) == Try(script, ours, Before(script, ours, w, j)).0
    ensures Before(script, ours, w, 0) == w
    decreases j
  {
    hide Try;
    var op := Operation(script, ours);
    assert forall v: World :: op(v) == Try(script, ours, v);
    if j > 0 {
      BeforeStep(script, ours, op(w).0, j - 1);
    } else {
      assert Retry.After(op, op(w).0, 0) == op(w).0;
    }
  }

  lemma {:induction false} BeforeIsGood(script: nat -> Attempt, ours: Transaction, w: World, i: nat, j: nat)
    requires Inv(w, ours) && Fair(script, ours) && i <= j
    ensures Inv(Before(script, ours, w, j), ours)
    ensures Done(Before(script, ours, w, i).agents, ours) ==> Done(Before(script, ours, w, j).agents, ours)
    decreases j
  {
    hide Inv, Try, Before, Done;
    BeforeStep(script, ours, w, 0);
    if j > 0 {
      BeforeIsGood(script, ours, w, if i < j then i else j - 1, j - 1);
      BeforeStep(script, ours, w, j - 1);
      TryIsGood(script, ours, Before(script, ours, w, j - 1));
      GoodKeepsDone(Before(script, ours, w, j - 1), Before(script, ours, w, j), ours);
    }
  }

  /** The attempt applies a transaction of the signer without the signer hearing of it. */
  predicate Unheard(script: nat -> Attempt, ours: Transaction, w: World) {
    LosesReply(script, ours, w) || Late(script, ours, w)
  }

  lemma {:induction false} DoneIff(script: nat -> Attempt, ours: Transaction, w: World, n: nat)
    requires Inv(w, ours) && Fair(script, ours)
    ensures Done(Before(script, ours, w, n).agents, ours) <==>
              Done(w.agents, ours) || exists j :: 0 <= j < n && Brings(script, ours, Before(script, ours, w, j))
    decreases n
  {
    hide Inv, Try, Before, Done, Answers, LosesReply, Late, Fair;
    BeforeStep(script, ours, w, 0);
    if n > 0 {
      DoneIff(script, ours, w, n - 1);
      BeforeIsGood(script, ours, w, 0, n - 1);
      BeforeStep(script, ours, w, n - 1);
      AttemptDone(script, ours, Before(script, ours, w, n - 1));
    }
  }

  predicate Brings(script: nat -> Attempt, ours: Transaction, w: World) {
    Answers(script, ours, w) || Unheard(script, ours, w)
  }

  /** The attempts made are the calls of the retried operation, and only the last one can answer. */
  lemma MadeAttempts(script: nat -> Attempt, random: nat -> real, ours: Transaction, w: World) returns (calls: nat)
    requires Inv(w, ours) && Fair(script, ours)
    ensures var t := Call(script, random, ours, w);
            && calls >= 1 && t.world == Before(script, ours, w, calls)
            && (t.outcome.Returned? <==> Answers(script, ours, Before(script, ours, w, calls - 1)))
    ensures forall j: nat :: Made(script, ours, w, j) <==> j < calls
    ensures forall j: nat :: j < calls - 1 ==> !Answers(script, ours, Before(script, ours, w, j))
  {
    var op, t := Operation(script, ours), Call(script, random, ours, w);
    calls := t.calls;
    Retry.LastAnswerIsPassedOn(op, Retry.DEFAULTS, Retry.IsTransientError, random, w, 0, Retry.DEFAULTS.initialDelayMs);
    hide *;
    OutcomeIs(Retry.Answer(op, w, calls - 1));
    WorldIsBefore(script, ours, w, calls);
    AnswerIs(script, ours, w, calls - 1);
    forall j: nat ensures Made(script, ours, w, j) <==> j < calls {
      MadeIff(script, ours, w, calls, j);
    }
    forall j: nat | j < calls - 1 ensures !Answers(script, ours, Before(script, ours, w, j)) {
      EarlierFails(script, ours, w, calls, j);
    }
  }

  lemma OutcomeIs(answer: Result<Receipt, string>)
    ensures Retry.OutcomeOf(answer).Returned? <==> answer.Ok?
  {
  }

  lemma WorldIsBefore(script: nat -> Attempt, ours: Transaction, w: World, n: nat)
    ensures Before(script, ours, w, n) == Retry.After(Operation(script, ours), w, n)
  {
  }

  lemma AnswerIs(script: nat -> Attempt, ours: Transaction, w: World, j: nat)
    requires Inv(w, ours) && Fair(script, ours)
    ensures Retry.Answer(Operation(script, ours), w, j).Ok? <==> Answers(script, ours, Before(script, ours, w, j))
  {
    hide Inv, Try, Fair, Answers, Done;
    BeforeIsGood(script, ours, w, 0, j);
    AttemptDone(script, ours, Before(script, ours, w, j));
  }

  lemma MadeIff(script: nat -> Attempt, ours: Transaction, w: World, calls: nat, j: nat)
    requires Retry.EndsWith(Operation(script, ours), Retry.IsTransientError, Retry.DEFAULTS.maxAttempts, w, calls)
    ensures Made(script, ours, w, j) <==> j < calls
  {
    hide Operation, Retry.IsTransientError, Retry.FailsTransiently;
    var last: nat := calls - 1;
    assert Made(script, ours, w, j) && j > last ==>
             Retry.FailsTransiently(Operation(script, ours), Retry.IsTransientError, w, last);
  }

  lemma EarlierFails(script: nat -> Attempt, ours: Transaction, w: World, calls: nat, j: nat)
    requires Inv(w, ours) && Fair(script, ours) && j < calls - 1
    requires Retry.EndsWith(Operation(script, ours), Retry.IsTransientError, Retry.DEFAULTS.maxAttempts, w, calls)
    ensures !Answers(script, ours, Before(script, ours, w, j))
  {
    AnswerIs(script, ours, w, j);
    hide Operation, Retry.IsTransientError, Answers, Before, Fair, Inv;
    assert Retry.FailsTransiently(Operation(script, ours), Retry.IsTransientError, w, j);
  }

  // ---------- Exactly when ----------

  /** Some attempt that is made answers. */
  ghost predicate SomeAnswers(script: nat -> Attempt, ours: Transaction, w: World) {
    exists j: nat :: Made(script, ours, w, j) && Answers(script, ours, Before(script, ours, w, j))
  }

  /** In some attempt that is made, a transaction is applied whose reply is lost or that was left pending before. */
  ghost predicate SomeUnheard(script: nat -> Attempt, ours: Transaction, w: World) {
    exists j: nat :: Made(script, ours, w, j) && Unheard(script, ours, Before(script, ours, w, j))
  }

  /**
   * A registration, update or deactivation resolves exactly when some attempt's own
   * transaction is applied and its reply arrives. It is rejected with its change in
   * effect exactly when none does, and the change was in effect before or came about
   * by a transaction that lost its reply or was mined late.
   */
  lemma ResolvesIff(script: nat -> Attempt, random: nat -> real, ours: Transaction, w: World)
    requires Inv(w, ours) && Fair(script, ours)
    ensures var t := Call(script, random, ours, w);
            && (t.outcome.Returned? <==> SomeAnswers(script, ours, w))
            && (!t.outcome.Returned? && Done(t.world.agents, ours) <==>
                  !SomeAnswers(script, ours, w) && (Done(w.agents, ours) || SomeUnheard(script, ours, w)))
  {
    var calls := MadeAttempts(script, random, ours, w);
    DoneIff(script, ours, w, calls);
    SomeOfMade(script, ours, w, calls);
    hide *;
  }

  lemma SomeOfMade(script: nat -> Attempt, ours: Transaction, w: World, calls: nat)
    requires calls >= 1 && forall j: nat :: Made(script, ours, w, j) <==> j < calls
    requires forall j: nat :: j < calls - 1 ==> !Answers(script, ours, Before(script, ours, w, j))
    ensures SomeAnswers(script, ours, w) <==> Answers(script, ours, Before(script, ours, w, calls - 1))
    ensures SomeAnswers(script, ours, w) || SomeUnheard(script, ours, w)
       <==> exists j :: 0 <= j < calls && Brings(script, ours, Before(script, ours, w, j))
  {
    hide Answers, Unheard, Before, Made;
    assert Made(script, ours, w, calls - 1);
    if j :| 0 <= j < calls && Brings(script, ours, Before(script, ours, w, j)) {
      assert Made(script, ours, w, j);
    }
  }

  /** What is done once cannot be done again: a registration or a deactivation. */
  predicate OnceOnly(ours: Transaction) { !ours.UpdateAgent? }

  lemma DoneDoesNotLand(w: World, ours: Transaction)
    requires OnceOnly(ours) && Inv(w, ours) && Done(w.agents, ours)
    ensures !Lands(w, ours)
  {
  }

  lemma {:induction false} NothingLateOnceDone(w: World, ours: Transaction, hs: seq<Happening>)
    requires OnceOnly(ours) && Inv(w, ours) && ForeignOnly(hs, ours) && Done(w.agents, ours)
    ensures !MinesLate(w, ours, hs)
    decreases |hs|
  {
    if hs != [] {
      DoneDoesNotLand(w, ours);
      HappenIsGood(w, ours, hs[0]);
      hide Inv, Done, Happen, Lands, Foreign;
      NothingLateOnceDone(Happen(w, ours.did, hs[0]), ours, hs[1..]);
    }
  }

  /** Nothing lands in an attempt after the change is in effect, and an answer leaves room for nothing else. */
  lemma OnceInAttempt(script: nat -> Attempt, ours: Transaction, w: World)
    requires OnceOnly(ours) && Inv(w, ours) && Fair(script, ours)
    ensures Done(w.agents, ours) ==> !Brings(script, ours, w)
    ensures Answers(script, ours, w) ==> !Unheard(script, ours, w)
  {
    StagesAreGood(script, ours, w);
    hide Inv, Done, Lands, MinesLate, HappenAll, Meet, Fair, ForeignOnly, OnceOnly;
    var a, next, met := script(w.attempt), w.(attempt := w.attempt + 1), Met(script, ours, w);
    HappenAllDone(next, ours, a.before);
    MeetDone(met, ours, a.fate);
    if Done(w.agents, ours) {
      NothingLateOnceDone(next, ours, a.before);
    }
    if Done(met.agents, ours) {
      DoneDoesNotLand(met, ours);
    }
    if Done(Left(script, ours, w).agents, ours) {
      NothingLateOnceDone(Left(script, ours, w), ours, a.after);
    }
  }

  lemma BroughtOnce(script: nat -> Attempt, ours: Transaction, w: World, i: nat, j: nat)
    requires OnceOnly(ours) && Inv(w, ours) && Fair(script, ours) && i < j
    ensures !Brings(script, ours, Before(script, ours, w, i)) || !Brings(script, ours, Before(script, ours, w, j))
  {
    hide Inv, Fair, Done, Answers, LosesReply, Late, Before, Try;
    BeforeIsGood(script, ours, w, 0, i);
    BeforeIsGood(script, ours, w, i + 1, j);
    BeforeStep(script, ours, w, i);
    AttemptDone(script, ours, Before(script, ours, w, i));
    OnceInAttempt(script, ours, Before(script, ours, w, j));
  }

  /**
   * A registration or a deactivation that was not in effect before is rejected with
   * its change in effect exactly when, in an attempt that is made, a transaction is
   * applied whose reply is lost or that an earlier attempt had left pending.
   */
  lemma RejectedButDoneIff(script: nat -> Attempt, random: nat -> real, ours: Transaction, w: World)
    requires OnceOnly(ours) && Inv(w, ours) && Fair(script, ours) && !Done(w.agents, ours)
    ensures var t := Call(script, random, ours, w);
            !t.outcome.Returned? && Done(t.world.agents, ours) <==> SomeUnheard(script, ours, w)
  {
    ResolvesIff(script, random, ours, w);
    hide Call, Inv, Fair, Done, Answers, Unheard, Before, Made;
    forall i: nat, j: nat | Made(script, ours, w, i) && Made(script, ours, w, j)
      ensures !Answers(script, ours, Before(script, ours, w, i)) || !Unheard(script, ours, Before(script, ours, w, j))
    {
      if i == j {
        BeforeIsGood(script, ours, w, 0, i);
        OnceInAttempt(script, ours, Before(script, ours, w, i));
      } else {
        BroughtOnce(script, ours, w, if i < j then i else j, if i < j then j else i);
      }
    }
  }

  // ---------- Witnesses ----------

  /** Every attempt is mined at once, and every reply is lost with the same message. */
  function RepliesLost(message: string): nat -> Attempt { (k: nat) => Attempt([], Mined(0, Some(message)), []) }

  lemma LostTry(message: string, ours: Transaction, w: World)
    ensures Try(RepliesLost(message), ours, w).1 == Err(message)
    ensures Lands(w, ours) || Done(w.agents, ours) ==> Done(Try(RepliesLost(message), ours, w).0.agents, ours)
  {
  }

  lemma {:induction false} RetriedLost(message: string, random: nat -> real, ours: Transaction, w: World, attempt: nat,
                                       delay: real)
    requires (Lands(w, ours) || Done(w.agents, ours)) && attempt < Retry.DEFAULTS.maxAttempts
    ensures var t := Retry.Retried(Operation(RepliesLost(message), ours), Retry.DEFAULTS, Retry.IsTransientError,
                                   random, w, attempt, delay);
            t.outcome == Retry.Threw(message) && Done(t.world.agents, ours)
    decreases Retry.DEFAULTS.maxAttempts - attempt
  {
    hide Try, Done, Lands, Retry.NextDelay, Retry.Wait, Retry.IsTransientError;
    LostTry(message, ours, w);
    var next := Try(RepliesLost(message), ours, w).0;
    assert Operation(RepliesLost(message), ours)(w) == Try(RepliesLost(message), ours, w);
    if attempt + 1 < Retry.DEFAULTS.maxAttempts {
      RetriedLost(message, random, ours, next, attempt + 1, Retry.NextDelay(Retry.DEFAULTS, delay));
    }
  }

  /** A registration, update or deactivation that is in effect although the call was rejected. */
  lemma LostReplyRejects(message: string, random: nat -> real, ours: Transaction, w: World)
    requires Lands(w, ours)
    ensures var t := Call(RepliesLost(message), random, ours, w);
            t.outcome == Retry.Threw(message) && Done(t.world.agents, ours)
  {
    hide Retry.Retried, Try, Done, Lands;
    RetriedLost(message, random, ours, w, 0, Retry.DEFAULTS.initialDelayMs);
  }
}
