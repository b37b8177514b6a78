/** `refresh` of src/observability/domain-gauges.service.ts: a cache with a lifetime and one shared load in flight. */
module GaugeCache {
  import opened Wrappers

  /** One round of queries and the `now` of the call that started it. */
  datatype Load = Load(id: nat, startedAt: int)

  /**
   * The promise chain load().then().catch().finally(), one callback after the
   * other. Scrapes may come between any two of them.
   */
  datatype Phase = Loading | Loaded | Recorded | Failing | Counted

  datatype Flight = Flight(load: Load, phase: Phase)

  /** A refresh that is awaiting the shared promise. */
  datatype Waiter = Waiter(now: int, load: Load)

  /** A refresh that has returned: what the gauges showed, and whether its load had failed. */
  datatype Answer = Answer(now: int, shown: Option<Load>, awaited: Option<Load>, failed: bool)

  datatype State = State(
    lastRefreshAt: int,
    inFlight: Option<Flight>,
    shown: Option<Load>,
    errors: nat,
    started: nat,
    running: set<Load>,
    succeeded: seq<Load>,
    waiting: seq<Waiter>,
    answers: seq<Answer>)

  const INITIAL := State(0, None, None, 0, 0, {}, [], [], [])

  datatype Event =
    | Refresh(now: int)
    | LoadSucceeds(load: Load)
    | LoadFails(load: Load)
    | Then
    | Catch
    | Finally

  function Fresh(s: State, ttlMs: int, now: int): bool { s.lastRefreshAt != 0 && now - s.lastRefreshAt < ttlMs }

  function AnswerAll(waiting: seq<Waiter>, shown: Option<Load>, failed: bool): (out: seq<Answer>)
    ensures |out| == |waiting|
    ensures forall i :: 0 <= i < |out| ==> out[i] == Answer(waiting[i].now, shown, Some(waiting[i].load), failed)
  {
    if waiting == [] then []
    else [Answer(waiting[0].now, shown, Some(waiting[0].load), failed)] + AnswerAll(waiting[1..], shown, failed)
  }

  function AfterRefresh(s: State, ttlMs: int, now: int): State {
    if Fresh(s, ttlMs, now) then s.(answers := s.answers + [Answer(now, s.shown, None, false)])
    else if s.inFlight.Some? then s.(waiting := s.waiting + [Waiter(now, s.inFlight.value.load)])
    else
      var load := Load(s.started, now);
      s.(inFlight := Some(Flight(load, Loading)), started := s.started + 1, running := s.running + {load},
         waiting := s.waiting + [Waiter(now, load)])
  }

  predicate InPhase(s: State, phase: Phase) { s.inFlight.Some? && s.inFlight.value.phase == phase }

  function Advance(inFlight: Option<Flight>, load: Load, phase: Phase): Option<Flight> {
    if inFlight.Some? && inFlight.value.load == load then Some(Flight(load, phase)) else inFlight
  }

  /** None when the event cannot happen in this state. Any running load may end, whatever `inFlight` says. */
  function Step(s: State, ttlMs: int, e: Event): Option<State> {
    match e
    case Refresh(now) => Some(AfterRefresh(s, ttlMs, now))
    case LoadSucceeds(load) =>
      if load !in s.running then None
      else
        Some(s.(running := s.running - {load}, shown := Some(load), succeeded := s.succeeded + [load],
                inFlight := Advance(s.inFlight, load, Loaded)))
    case LoadFails(load) =>
      if load !in s.running then None
      else Some(s.(running := s.running - {load}, inFlight := Advance(s.inFlight, load, Failing)))
    case Then =>
      if !InPhase(s, Loaded) then None
      else Some(s.(lastRefreshAt := s.inFlight.value.load.startedAt,
                   inFlight := Some(s.inFlight.value.(phase := Recorded))))
    case Catch =>
      if !InPhase(s, Failing) then None
      else Some(s.(errors := s.errors + 1, inFlight := Some(s.inFlight.value.(phase := Counted))))
    case Finally =>
      if !InPhase(s, Recorded) && !InPhase(s, Counted) then None
      else
        Some(s.(inFlight := None, waiting := [],
                answers := s.answers + AnswerAll(s.waiting, s.shown, s.inFlight.value.phase == Counted)))
  }

  // ---------- The service ----------

  class DomainGaugesService {
    const ttlMs: int
    var lastRefreshAt: int
    var inFlight: Option<Flight>
    var shown: Option<Load>
    var errors: nat
    /** What the promises and callers around the two fields know. */
    ghost var running: set<Load>
    ghost var succeeded: seq<Load>
    ghost var waiting: seq<Waiter>
    ghost var answers: seq<Answer>
    var nextLoad: nat

    ghost function Now(): State
      reads this
    {
      State(lastRefreshAt, inFlight, shown, errors, nextLoad, running, succeeded, waiting, answers)
    }

    constructor (ttlMs: int)
      ensures this.ttlMs == ttlMs && Now() == INITIAL
    {
      this.ttlMs, lastRefreshAt, inFlight, shown, errors, nextLoad := ttlMs, 0, None, None, 0, 0;
      running, succeeded, waiting, answers := {}, [], [], [];
    }

    /** The part of a call up to its await; true when it returns without waiting. */
    method Refresh(now: int) returns (done: bool)
      modifies this
      ensures Some(Now()) == Step(old(Now()), ttlMs, Event.Refresh(now))
      ensures done == Fresh(old(Now()), ttlMs, now)
    {
      if lastRefreshAt != 0 && now - lastRefreshAt < ttlMs {
        answers := answers + [Answer(now, shown, None, false)];
        return true;
      }
      if inFlight.None? {
        running := running + {Load(nextLoad, now)};
        inFlight := Some(Flight(Load(nextLoad, now), Loading));
        nextLoad := nextLoad + 1;
      }
      waiting := waiting + [Waiter(now, inFlight.value.load)];
      return false;
    }

    /** All three queries answered: the gauges are set in one go. */
    method OnLoaded(load: Load)
      requires load in running
      modifies this
      ensures Some(Now()) == Step(old(Now()), ttlMs, LoadSucceeds(load))
    {
      running, succeeded := running - {load}, succeeded + [load];
      shown := Some(load);
      inFlight := Advance(inFlight, load, Loaded);
    }

    method OnLoadFailed(load: Load)
      requires load in running
      modifies this
      ensures Some(Now()) == Step(old(Now()), ttlMs, LoadFails(load))
    {
      running := running - {load};
      inFlight := Advance(inFlight, load, Failing);
    }

    method OnThen()
      requires Step(Now(), ttlMs, Then).Some?
      modifies this
      ensures Some(Now()) == Step(old(Now()), ttlMs, Then)
    {
      lastRefreshAt := inFlight.value.load.startedAt;
      inFlight := Some(inFlight.value.(phase := Recorded));
    }

    method OnCatch()
      requires Step(Now(), ttlMs, Catch).Some?
      modifies this
      ensures Some(Now()) == Step(old(Now()), ttlMs, Catch)
    {
      errors := errors + 1;
      inFlight := Some(inFlight.value.(phase := Counted));
    }

    method OnFinally()
      requires Step(Now(), ttlMs, Finally).Some?
      modifies this
      ensures Some(Now()) == Step(old(Now()), ttlMs, Finally)
    {
      answers := answers + AnswerAll(waiting, shown, inFlight.value.phase == Counted);
      waiting := [];
      inFlight := None;
    }
  }

  // ---------- Run invariants ----------

  /** A refresh that met no failure showed a load younger than the lifetime, or the one in flight at the call. */
  predicate GoodAnswer(a: Answer, ttlMs: int) {
    !a.failed ==> a.shown.Some? && (a.now - a.shown.value.startedAt < ttlMs || a.awaited == a.shown)
  }

  predicate Spaced(loads: seq<Load>, ttlMs: int) {
    forall i :: 0 < i < |loads| ==> loads[i].startedAt - loads[i - 1].startedAt >= ttlMs
  }

  function LastStart(s: State): int {
    if s.succeeded == [] then 0 else s.succeeded[|s.succeeded| - 1].startedAt
  }

  /** The flight and the cache fields, up to the latest `now` passed so far. */
  predicate Inv(s: State, ttlMs: int, clock: int) {
    && s.shown == (if s.succeeded == [] then None else Some(s.succeeded[|s.succeeded| - 1]))
    && (forall l :: l in s.succeeded ==> 0 < l.startedAt <= clock)
    && (!InPhase(s, Loaded) ==> s.lastRefreshAt == LastStart(s))
    && Spaced(s.succeeded, ttlMs)
    && FlightInv(s, ttlMs, clock)
  }

  predicate FlightInv(s: State, ttlMs: int, clock: int) {
    && s.running == (if InPhase(s, Loading) then {s.inFlight.value.load} else {})
    && (s.inFlight.None? ==> s.waiting == [])
    && (s.inFlight.Some? ==>
         && 0 < s.inFlight.value.load.startedAt <= clock
         && (forall w :: w in s.waiting ==> w.load == s.inFlight.value.load)
         && (InPhase(s, Loaded) || InPhase(s, Recorded) ==> s.shown == Some(s.inFlight.value.load))
         && (!InPhase(s, Recorded) && s.lastRefreshAt != 0 ==>
              s.inFlight.value.load.startedAt - s.lastRefreshAt >= ttlMs)
         && (!InPhase(s, Recorded) && !InPhase(s, Loaded) && s.succeeded != [] ==>
              s.inFlight.value.load.startedAt - LastStart(s) >= ttlMs))
  }

  predicate AnswersInv(s: State, ttlMs: int) { forall a :: a in s.answers ==> GoodAnswer(a, ttlMs) }

  predicate EventOk(e: Event, clock: int) { e.Refresh? ==> 0 < e.now && clock <= e.now }

  function Clock(e: Event, clock: int): int { if e.Refresh? then e.now else clock }

  lemma RefreshKeeps(s: State, ttlMs: int, clock: int, now: int)
    requires Inv(s, ttlMs, clock) && AnswersInv(s, ttlMs) && EventOk(Refresh(now), clock)
    ensures Inv(AfterRefresh(s, ttlMs, now), ttlMs, now) && AnswersInv(AfterRefresh(s, ttlMs, now), ttlMs)
  {
  }

  lemma LoadSucceedsKeeps(s: State, ttlMs: int, clock: int, load: Load)
    requires Inv(s, ttlMs, clock) && AnswersInv(s, ttlMs)
    requires Step(s, ttlMs, LoadSucceeds(load)).Some?
    ensures Inv(Step(s, ttlMs, LoadSucceeds(load)).value, ttlMs, clock)
    ensures AnswersInv(Step(s, ttlMs, LoadSucceeds(load)).value, ttlMs)
  {
  }

  lemma FinallyKeeps(s: State, ttlMs: int, clock: int)
    requires Inv(s, ttlMs, clock) && AnswersInv(s, ttlMs)
    requires Step(s, ttlMs, Finally).Some?
    ensures Inv(Step(s, ttlMs, Finally).value, ttlMs, clock)
    ensures AnswersInv(Step(s, ttlMs, Finally).value, ttlMs)
  {
    var out := AnswerAll(s.waiting, s.shown, s.inFlight.value.phase == Counted);
    forall a | a in out ensures GoodAnswer(a, ttlMs) {
      var i :| 0 <= i < |out| && out[i] == a;
      assert s.waiting[i] in s.waiting;
    }
  }

  lemma StepKeeps(s: State, ttlMs: int, clock: int, e: Event)
    requires Inv(s, ttlMs, clock) && AnswersInv(s, ttlMs) && EventOk(e, clock)
    requires Step(s, ttlMs, e).Some?
    ensures Inv(Step(s, ttlMs, e).value, ttlMs, Clock(e, clock)) && AnswersInv(Step(s, ttlMs, e).value, ttlMs)
  {
    match e
    case Refresh(now) => RefreshKeeps(s, ttlMs, clock, now);
    case LoadSucceeds(load) => LoadSucceedsKeeps(s, ttlMs, clock, load);
    case Finally => FinallyKeeps(s, ttlMs, clock);
    case _ =>
  }

  function Run(s: State, ttlMs: int, run: seq<Event>): Option<State>
    decreases |run|
  {
    if run == [] then Some(s)
    else match Step(s, ttlMs, run[0]) case None => None case Some(next) => Run(next, ttlMs, run[1..])
  }

  predicate RunOk(run: seq<Event>, clock: int)
    decreases |run|
  {
    run == [] || (EventOk(run[0], clock) && RunOk(run[1..], Clock(run[0], clock)))
  }

  lemma {:induction false} RunKeeps(s: State, ttlMs: int, run: seq<Event>, clock: int)
    requires Inv(s, ttlMs, clock) && AnswersInv(s, ttlMs) && RunOk(run, clock)
    requires Run(s, ttlMs, run).Some?
    ensures exists later :: Inv(Run(s, ttlMs, run).value, ttlMs, later)
    ensures AnswersInv(Run(s, ttlMs, run).value, ttlMs)
    decreases |run|
  {
    hide Inv, Step, AnswersInv;
    if run != [] {
      StepKeeps(s, ttlMs, clock, run[0]);
      RunKeeps(Step(s, ttlMs, run[0]).value, ttlMs, run[1..], Clock(run[0], clock));
    }
  }

  /**
   * In every interleaving: at most one load is running, the gauges show the last
   * load that succeeded, successful loads start at least the lifetime apart, and
   * every refresh that met no failure showed fresh or awaited values.
   */
  lemma CacheIsSound(ttlMs: int, run: seq<Event>)
    requires RunOk(run, 0) && Run(INITIAL, ttlMs, run).Some?
    ensures var s := Run(INITIAL, ttlMs, run).value;
            && (forall a, b :: a in s.running && b in s.running ==> a == b)
            && s.shown == (if s.succeeded == [] then None else Some(s.succeeded[|s.succeeded| - 1]))
            && Spaced(s.succeeded, ttlMs)
            && (forall a :: a in s.answers ==> GoodAnswer(a, ttlMs))
  {
    hide Run;
    RunKeeps(INITIAL, ttlMs, run, 0);
    var s := Run(INITIAL, ttlMs, run).value;
    var later :| Inv(s, ttlMs, later);
  }
}
