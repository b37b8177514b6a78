/** src/blockchain/nonce-manager.ts: a promise chain that hands out transaction nonces. */
module NonceManager {
  import opened Wrappers

  /** Where the async function of one reservation stands. */
  datatype Phase =
    | Waiting
    | Fetching
    | Calling(nonce: int)
    | Settled(outcome: Outcome)

  /** No nonce: the fetch was rejected. Otherwise the callback was called and resolved or was rejected. */
  datatype Outcome = NoNonce | Used(nonce: int, resolved: bool)

  /** A reservation and the one whose (caught) promise it is chained to. */
  datatype Task = Task(after: Option<nat>, phase: Phase)

  datatype Call = Call(task: nat, nonce: int)

  /** The two fields of the manager, then what its promises and callers know. */
  datatype State = State(next: Option<int>, queue: Option<nat>, tasks: seq<Task>, fetched: seq<int>, calls: seq<Call>)

  const INITIAL := State(None, None, [], [], [])

  datatype Event =
    | Reserve
    | Turn(task: nat)
    | FetchResolves(task: nat, nonce: int)
    | FetchRejects(task: nat)
    | CallbackSettles(task: nat, resolved: bool)

  /** The promise that the reservation is chained to has settled. */
  predicate TurnCame(s: State, task: nat) {
    task < |s.tasks| && s.tasks[task].phase.Waiting?
    && (s.tasks[task].after.Some? ==>
          s.tasks[task].after.value < |s.tasks| && s.tasks[s.tasks[task].after.value].phase.Settled?)
  }

  function SetPhase(tasks: seq<Task>, task: nat, phase: Phase): seq<Task>
    requires task < |tasks|
  {
    tasks[task := tasks[task].(phase := phase)]
  }

  /** Uses the nonce for this reservation and stores its successor. */
  function CallWith(s: State, task: nat, nonce: int): State
    requires task < |s.tasks|
  {
    s.(next := Some(nonce + 1), tasks := SetPhase(s.tasks, task, Calling(nonce)),
       calls := s.calls + [Call(task, nonce)])
  }

  /** None when the event cannot happen in this state. */
  function Step(s: State, e: Event): Option<State> {
    match e
    case Reserve => Some(s.(tasks := s.tasks + [Task(s.queue, Waiting)], queue := Some(|s.tasks|)))
    case Turn(task) =>
      if !TurnCame(s, task) then None
      else if s.next.None? then Some(s.(tasks := SetPhase(s.tasks, task, Fetching)))
      else Some(CallWith(s, task, s.next.value))
    case FetchResolves(task, nonce) =>
      if task >= |s.tasks| || !s.tasks[task].phase.Fetching? then None
      else Some(CallWith(s.(fetched := s.fetched + [nonce]), task, nonce))
    case FetchRejects(task) =>
      if task >= |s.tasks| || !s.tasks[task].phase.Fetching? then None
      else Some(s.(tasks := SetPhase(s.tasks, task, Settled(NoNonce))))
    case CallbackSettles(task, resolved) =>
      if task >= |s.tasks| || !s.tasks[task].phase.Calling? then None
      else Some(s.(tasks := SetPhase(s.tasks, task, Settled(Used(s.tasks[task].phase.nonce, resolved)))))
  }

  // ---------- The manager ----------

  class NonceManager {
    var next: Option<int>
    /** The reservation whose promise `queue` holds; None is the resolved promise it starts with. */
    var queue: Option<nat>
    var tasks: seq<Task>
    ghost var fetched: seq<int>
    ghost var calls: seq<Call>

    ghost function Now(): State
      reads this
    {
      State(next, queue, tasks, fetched, calls)
    }

    constructor ()
      ensures Now() == INITIAL
    {
      next, queue, tasks, fetched, calls := None, None, [], [], [];
    }

    method Reserve() returns (task: nat)
      modifies this
      ensures Some(Now()) == Step(old(Now()), Event.Reserve)
      ensures task == |old(tasks)|
    {
      task := |tasks|;
      tasks := tasks + [Task(queue, Waiting)];
      queue := Some(task);
    }

    /** The async function up to the fetch, or to the callback when the nonce is known. */
    method OnTurn(task: nat) returns (nonce: Option<int>)
      requires TurnCame(Now(), task)
      modifies this
      ensures Some(Now()) == Step(old(Now()), Turn(task))
      ensures nonce == old(next)
    {
      nonce := next;
      if next.None? {
        tasks := SetPhase(tasks, task, Fetching);
      } else {
        StartCallback(task);
      }
    }

    method StartCallback(task: nat)
      requires next.Some? && task < |tasks|
      modifies this
      ensures Now() == CallWith(old(Now()), task, old(next).value)
    {
      var nonce := next.value;
      next := Some(nonce + 1);
      tasks := SetPhase(tasks, task, Calling(nonce));
      calls := calls + [Call(task, nonce)];
    }

    method OnFetchResolved(task: nat, nonce: int)
      requires task < |tasks| && tasks[task].phase.Fetching?
      modifies this
      ensures Some(Now()) == Step(old(Now()), FetchResolves(task, nonce))
    {
      next := Some(nonce);
      fetched := fetched + [nonce];
      StartCallback(task);
    }

    method OnFetchRejected(task: nat)
      requires task < |tasks| && tasks[task].phase.Fetching?
      modifies this
      ensures Some(Now()) == Step(old(Now()), FetchRejects(task))
    {
      tasks := SetPhase(tasks, task, Settled(NoNonce));
    }

    method OnCallbackSettled(task: nat, resolved: bool)
      requires task < |tasks| && tasks[task].phase.Calling?
      modifies this
      ensures Some(Now()) == Step(old(Now()), CallbackSettles(task, resolved))
    {
      tasks := SetPhase(tasks, task, Settled(Used(tasks[task].phase.nonce, resolved)));
    }
  }

  // ---------- Run invariants ----------

  predicate Running(t: Task) { t.phase.Fetching? || t.phase.Calling? }

  /** Each reservation is chained to the one before it, and starts only after that one settled. */
  predicate Chained(s: State) {
    && s.queue == (if s.tasks == [] then None else Some(|s.tasks| - 1))
    && (forall i :: 0 <= i < |s.tasks| ==> s.tasks[i].after == if i == 0 then None else Some(i - 1))
    && (forall i, j :: 0 <= i < j < |s.tasks| && !s.tasks[j].phase.Waiting? ==> s.tasks[i].phase.Settled?)
  }

  /** Calls are in reservation order with consecutive nonces, starting at the one nonce ever fetched. */
  predicate Consecutive(s: State) {
    && |s.fetched| <= 1
    && s.next == (if s.fetched == [] then None else Some(s.fetched[0] + |s.calls|))
    && (s.fetched == [] ==> s.calls == [])
    && (forall k :: 0 <= k < |s.calls| ==> s.calls[k].nonce == s.fetched[0] + k)
    && (forall k, l :: 0 <= k < l < |s.calls| ==> s.calls[k].task < s.calls[l].task)
  }

  predicate HasNonce(phase: Phase, nonce: int) {
    phase == Calling(nonce) || (phase.Settled? && phase.outcome.Used? && phase.outcome.nonce == nonce)
  }

  predicate CallOf(s: State, task: nat, k: nat) {
    task < |s.tasks| && k < |s.calls| && s.calls[k].task == task && HasNonce(s.tasks[task].phase, s.calls[k].nonce)
  }

  predicate Reached(phase: Phase) { phase.Calling? || (phase.Settled? && phase.outcome.Used?) }

  /** The calls are exactly those of the reservations that got a nonce, each with its own. */
  ghost predicate Logged(s: State) {
    && (forall k :: 0 <= k < |s.calls| ==> CallOf(s, s.calls[k].task, k))
    && (forall i :: 0 <= i < |s.tasks| && Reached(s.tasks[i].phase) ==> exists k: nat :: CallOf(s, i, k))
  }

  predicate FetchesFirst(s: State) { forall i :: 0 <= i < |s.tasks| && s.tasks[i].phase.Fetching? ==> s.fetched == [] }

  ghost predicate Inv(s: State) { Chained(s) && Consecutive(s) && Logged(s) && FetchesFirst(s) }

  lemma ReserveKeeps(s: State)
    requires Inv(s)
    ensures Inv(Step(s, Reserve).value)
  {
    var t := Step(s, Reserve).value;
    assert forall i, k :: CallOf(s, i, k) ==> CallOf(t, i, k);
  }

  /** A call for the reservation whose turn it is keeps everything, when its nonce is the next one or the first. */
  lemma CallKeeps(s: State, task: nat, nonce: int)
    requires Chained(s) && Logged(s) && task < |s.tasks| && !Reached(s.tasks[task].phase)
    requires Consecutive(s.(next := Some(nonce))) && s.fetched != []
    requires forall i :: 0 <= i < task ==> s.tasks[i].phase.Settled?
    requires forall i :: task < i < |s.tasks| ==> s.tasks[i].phase.Waiting?
    requires forall i :: 0 <= i < |s.tasks| && i != task ==> !s.tasks[i].phase.Fetching?
    ensures Inv(CallWith(s, task, nonce))
  {
    var t := CallWith(s, task, nonce);
    assert forall i, k :: i != task && CallOf(s, i, k) ==> CallOf(t, i, k);
    assert CallOf(t, task, |s.calls|);
    forall k | 0 <= k < |s.calls| ensures s.calls[k].task < task && CallOf(t, s.calls[k].task, k) {
      assert CallOf(s, s.calls[k].task, k);
    }
  }

  lemma TurnKeeps(s: State, task: nat)
    requires Inv(s) && TurnCame(s, task)
    ensures Inv(Step(s, Turn(task)).value)
  {
    var t := Step(s, Turn(task)).value;
    assert forall i :: 0 <= i < task ==> s.tasks[i].phase.Settled?;
    if s.next.None? {
      assert forall i, k :: CallOf(s, i, k) ==> CallOf(t, i, k);
    } else {
      CallKeeps(s, task, s.next.value);
    }
  }

  lemma FetchResolvesKeeps(s: State, task: nat, nonce: int)
    requires Inv(s) && Step(s, FetchResolves(task, nonce)).Some?
    ensures Inv(Step(s, FetchResolves(task, nonce)).value)
  {
    assert s.fetched == [];
    var r := s.(fetched := s.fetched + [nonce]);
    assert forall i: nat, k: nat :: !CallOf(s, i, k);
    CallKeeps(r, task, nonce);
  }

  lemma SettleKeeps(s: State, e: Event)
    requires Inv(s) && Step(s, e).Some? && (e.FetchRejects? || e.CallbackSettles?)
    ensures Inv(Step(s, e).value)
  {
    var t := Step(s, e).value;
    assert forall i, k :: CallOf(s, i, k) ==> CallOf(t, i, k);
  }

  lemma StepKeeps(s: State, e: Event)
    requires Inv(s) && Step(s, e).Some?
    ensures Inv(Step(s, e).value)
  {
    hide Inv;
    match e
    case Reserve => ReserveKeeps(s);
    case Turn(task) => TurnKeeps(s, task);
    case FetchResolves(task, nonce) => FetchResolvesKeeps(s, task, nonce);
    case _ => SettleKeeps(s, e);
  }

  function Run(s: State, run: seq<Event>): Option<State>
    decreases |run|
  {
    if run == [] then Some(s)
    else match Step(s, run[0]) case None => None case Some(next) => Run(next, run[1..])
  }

  lemma {:induction false} RunKeeps(s: State, run: seq<Event>)
    requires Inv(s) && Run(s, run).Some?
    ensures Inv(Run(s, run).value)
    decreases |run|
  {
    hide Inv, Step;
    if run != [] {
      StepKeeps(s, run[0]);
      RunKeeps(Step(s, run[0]).value, run[1..]);
    }
  }

  /**
   * In every interleaving of reservations, rejected fetches and rejected callbacks:
   * one reservation at a time is being served; callbacks run in the order of the
   * reservations, with consecutive nonces from the only fetch that ever succeeded;
   * a reservation whose fetch failed used no nonce.
   */
  lemma NoncesAreSerialized(run: seq<Event>)
    requires Run(INITIAL, run).Some?
    ensures var s := Run(INITIAL, run).value;
            && (forall i, j :: 0 <= i < j < |s.tasks| ==> !Running(s.tasks[i]) || !Running(s.tasks[j]))
            && |s.fetched| <= 1 && (s.fetched == [] ==> s.calls == [])
            && (forall k :: 0 <= k < |s.calls| ==> s.calls[k].nonce == s.fetched[0] + k)
            && (forall k, l :: 0 <= k < l < |s.calls| ==> s.calls[k].task < s.calls[l].task)
            && (forall k :: 0 <= k < |s.calls| ==> CallOf(s, s.calls[k].task, k))
            && (forall i :: 0 <= i < |s.tasks| ==>
                 ((exists k :: 0 <= k < |s.calls| && s.calls[k].task == i) <==> Reached(s.tasks[i].phase)))
  {
    RunKeeps(INITIAL, run);
    var s := Run(INITIAL, run).value;
    forall i | 0 <= i < |s.tasks|
      ensures (exists k :: 0 <= k < |s.calls| && s.calls[k].task == i) <==> Reached(s.tasks[i].phase)
    {
      if Reached(s.tasks[i].phase) {
        var k: nat :| CallOf(s, i, k);
        assert s.calls[k].task == i;
      }
    }
  }

  // ---------- No rejection blocks later reservations ----------

  function Left(phase: Phase): nat {
    match phase case Waiting => 3 case Fetching => 2 case Calling(_) => 1 case Settled(_) => 0
  }

  /** What the unsettled reservations still have to go through. */
  function Work(tasks: seq<Task>): nat { if tasks == [] then 0 else Left(tasks[0].phase) + Work(tasks[1..]) }

  lemma {:induction false} WorkAt(tasks: seq<Task>, i: nat, phase: Phase)
    requires i < |tasks|
    ensures Work(SetPhase(tasks, i, phase)) - Left(phase) == Work(tasks) - Left(tasks[i].phase)
  {
    if i == 0 {
      assert SetPhase(tasks, 0, phase)[1..] == tasks[1..];
    } else {
      WorkAt(tasks[1..], i - 1, phase);
      assert SetPhase(tasks, i, phase)[1..] == SetPhase(tasks[1..], i - 1, phase);
    }
  }

  lemma StepWorks(s: State, e: Event)
    requires Step(s, e).Some? && !e.Reserve?
    ensures Work(Step(s, e).value.tasks) < Work(s.tasks)
  {
    var t := Step(s, e).value;
    WorkAt(s.tasks, e.task, t.tasks[e.task].phase);
  }

  /** Without new reservations a run makes at most `Work` steps. */
  lemma {:induction false} RunsEnd(s: State, run: seq<Event>)
    requires Run(s, run).Some? && forall i :: 0 <= i < |run| ==> !run[i].Reserve?
    ensures |run| + Work(Run(s, run).value.tasks) <= Work(s.tasks)
    decreases |run|
  {
    if run != [] {
      StepWorks(s, run[0]);
      RunsEnd(Step(s, run[0]).value, run[1..]);
    }
  }

  /** The events that are not up to the callers: a turn that came, or a fetch or callback that settles. */
  predicate Enabled(s: State, e: Event) { !e.Reserve? && Step(s, e).Some? }

  function FirstUnsettled(tasks: seq<Task>): (i: nat)
    ensures i <= |tasks| && forall j :: 0 <= j < i ==> tasks[j].phase.Settled?
    ensures i < |tasks| ==> !tasks[i].phase.Settled?
  {
    if tasks == [] || !tasks[0].phase.Settled? then 0 else 1 + FirstUnsettled(tasks[1..])
  }

  /** A run that has come to a stop has settled every reservation, whatever was rejected on the way. */
  lemma StoppedMeansSettled(run: seq<Event>)
    requires Run(INITIAL, run).Some?
    ensures var s := Run(INITIAL, run).value;
            (forall i :: 0 <= i < |s.tasks| ==> s.tasks[i].phase.Settled?) <==> !exists e :: Enabled(s, e)
  {
    RunKeeps(INITIAL, run);
    var s := Run(INITIAL, run).value;
    var i := FirstUnsettled(s.tasks);
    if i < |s.tasks| {
      match s.tasks[i].phase
      case Waiting => assert Enabled(s, Turn(i));
      case Fetching => assert Enabled(s, FetchRejects(i));
      case Calling(_) => assert Enabled(s, CallbackSettles(i, true));
    }
  }
}
