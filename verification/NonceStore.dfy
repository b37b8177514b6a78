/** src/modules/protocol/nonce-store.service.ts: a replay window that forgets, against a log that never does. */
module NonceStore {
  import opened Utf16
  import opened Did

  /** key -> the time at which the nonce was last accepted */
  type Entries = map<Text, int>

  function Key(agentId: Text, nonce: Text): Text { agentId + [COLON] + nonce }

  function Evict(entries: Entries, cutoff: int): Entries {
    map k | k in entries && entries[k] >= cutoff :: entries[k]
  }

  /** One call, with the clock readings it makes in order; the timer may tick between any two calls. */
  datatype Event =
    | AssertFresh(agentId: Text, nonce: Text, evictAt: int, storeAt: int)
    | Size(at: int)
    | TimerTick(at: int)

  datatype Output = Accepted | Rejected | Counted(n: nat) | Silent

  function Step(windowMs: int, entries: Entries, e: Event): (Entries, Output) {
    match e
    case AssertFresh(agentId, nonce, evictAt, storeAt) =>
      var kept := Evict(entries, evictAt - windowMs);
      if Key(agentId, nonce) in kept then (kept, Rejected)
      else (kept[Key(agentId, nonce) := storeAt], Accepted)
    case Size(at) => var kept := Evict(entries, at - windowMs); (kept, Counted(|kept|))
    case TimerTick(at) => (Evict(entries, at - windowMs), Silent)
  }

  // ---------- The service ----------

  class NonceStoreService {
    var entries: Entries
    const windowMs: int

    constructor (windowMs: int)
      ensures entries == map[] && this.windowMs == windowMs
    {
      entries, this.windowMs := map[], windowMs;
    }

    method EvictExpired(now: int)
      modifies this
      ensures entries == Evict(old(entries), now - windowMs)
    {
      var cutoff := now - windowMs;
      var todo := entries.Keys;
      while todo != {}
        invariant todo <= entries.Keys <= old(entries).Keys
        invariant forall k :: k in entries ==> entries[k] == old(entries)[k]
        invariant forall k :: k in old(entries) && k !in todo ==> (k in entries <==> old(entries)[k] >= cutoff)
        decreases |todo|
      {
        var key :| key in todo;
        if entries[key] < cutoff {
          entries := entries - {key};
        }
        todo := todo - {key};
      }
    }

    /** The background timer's callback. */
    method OnTimer(now: int)
      modifies this
      ensures entries == Step(windowMs, old(entries), TimerTick(now)).0
    {
      EvictExpired(now);
    }

    /** False is the ConflictException. */
    method AssertFresh(agentId: Text, nonce: Text, evictAt: int, storeAt: int) returns (accepted: bool)
      modifies this
      ensures (entries, if accepted then Accepted else Rejected)
           == Step(windowMs, old(entries), Event.AssertFresh(agentId, nonce, evictAt, storeAt))
    {
      EvictExpired(evictAt);
      var key := Key(agentId, nonce);
      if key in entries {
        return false;
      }
      entries := entries[key := storeAt];
      return true;
    }

    method Size(now: int) returns (n: nat)
      modifies this
      ensures (entries, Counted(n)) == Step(windowMs, old(entries), Event.Size(now))
    {
      EvictExpired(now);
      n := |entries|;
    }
  }

  // ---------- The store that never forgets ----------

  datatype Acceptance = Acceptance(agentId: Text, nonce: Text, at: int)

  /** The pair was accepted no longer than the window ago, boundary included. */
  predicate InWindow(log: seq<Acceptance>, agentId: Text, nonce: Text, cutoff: int) {
    exists a :: a in log && a.agentId == agentId && a.nonce == nonce && a.at >= cutoff
  }

  function PairsInWindow(log: seq<Acceptance>, cutoff: int): set<(Text, Text)> {
    set a | a in log && a.at >= cutoff :: (a.agentId, a.nonce)
  }

  function LogStep(windowMs: int, log: seq<Acceptance>, e: Event): (seq<Acceptance>, Output) {
    match e
    case AssertFresh(agentId, nonce, evictAt, storeAt) =>
      if InWindow(log, agentId, nonce, evictAt - windowMs) then (log, Rejected)
      else (log + [Acceptance(agentId, nonce, storeAt)], Accepted)
    case Size(at) => (log, Counted(|PairsInWindow(log, at - windowMs)|))
    case TimerTick(_) => (log, Silent)
  }

  function Outputs(windowMs: int, entries: Entries, run: seq<Event>): seq<Output>
    decreases |run|
  {
    if run == [] then []
    else var (next, out) := Step(windowMs, entries, run[0]); [out] + Outputs(windowMs, next, run[1..])
  }

  function LogOutputs(windowMs: int, log: seq<Acceptance>, run: seq<Event>): seq<Output>
    decreases |run|
  {
    if run == [] then []
    else var (next, out) := LogStep(windowMs, log, run[0]); [out] + LogOutputs(windowMs, next, run[1..])
  }

  function FirstReading(e: Event): int {
    match e case AssertFresh(_, _, evictAt, _) => evictAt case Size(at) => at case TimerTick(at) => at
  }

  function LastReading(e: Event): int {
    match e case AssertFresh(_, _, _, storeAt) => storeAt case Size(at) => at case TimerTick(at) => at
  }

  /** No clock reading of the run is earlier than the one before it. */
  predicate Clocked(run: seq<Event>, clock: int) {
    run == [] ||
    (clock <= FirstReading(run[0]) <= LastReading(run[0]) && Clocked(run[1..], LastReading(run[0])))
  }

  type Pair = (Text, Text)

  /** No two of the pairs share a key. */
  ghost predicate Separable(pairs: iset<Pair>) {
    forall p, q :: p in pairs && q in pairs && Key(p.0, p.1) == Key(q.0, q.1) ==> p == q
  }

  /** The run asks about these pairs only. */
  ghost predicate Asks(run: seq<Event>, pairs: iset<Pair>) {
    forall e :: e in run && e.AssertFresh? ==> (e.agentId, e.nonce) in pairs
  }

  // ---------- Forgetting is invisible ----------

  function PairOf(a: Acceptance): Pair { (a.agentId, a.nonce) }

  function KeyOf(a: Acceptance): Text { Key(a.agentId, a.nonce) }

  /** What the entries remember of the log once the clock has reached `clock`. */
  ghost predicate Remembers(pairs: iset<Pair>, windowMs: int, entries: Entries, log: seq<Acceptance>, clock: int) {
    (forall a :: a in log ==> PairOf(a) in pairs && a.at <= clock)
    && (forall k :: k in entries ==> exists a :: a in log && KeyOf(a) == k && a.at == entries[k])
    && (forall a :: a in log ==> a.at < clock - windowMs || (KeyOf(a) in entries && a.at <= entries[KeyOf(a)]))
  }

  lemma LaterStillRemembers(pairs: iset<Pair>, windowMs: int, entries: Entries, log: seq<Acceptance>, clock: int,
                            now: int)
    requires Remembers(pairs, windowMs, entries, log, clock) && clock <= now
    ensures Remembers(pairs, windowMs, entries, log, now)
  {
  }

  lemma EvictRemembers(pairs: iset<Pair>, windowMs: int, entries: Entries, log: seq<Acceptance>, clock: int, now: int)
    requires Remembers(pairs, windowMs, entries, log, clock) && clock <= now
    ensures Remembers(pairs, windowMs, Evict(entries, now - windowMs), log, now)
  {
  }

  lemma AcceptRemembers(pairs: iset<Pair>, windowMs: int, entries: Entries, log: seq<Acceptance>, clock: int,
                        a: Acceptance)
    requires Remembers(pairs, windowMs, entries, log, clock)
    requires clock <= a.at && PairOf(a) in pairs
    ensures Remembers(pairs, windowMs, entries[KeyOf(a) := a.at], log + [a], a.at)
  {
    hide KeyOf;
    var next := entries[KeyOf(a) := a.at];
    forall k | k in next ensures exists b :: b in log + [a] && KeyOf(b) == k && b.at == next[k] {
      if k == KeyOf(a) {
        assert a in log + [a];
      } else {
        var b :| b in log && KeyOf(b) == k && b.at == entries[k];
        assert b in log + [a];
      }
    }
  }

  /** After eviction a key is present exactly when the log has the pair in the window. */
  lemma PresentIffInWindow(pairs: iset<Pair>, windowMs: int, kept: Entries, log: seq<Acceptance>, now: int, pair: Pair)
    requires Remembers(pairs, windowMs, kept, log, now) && Separable(pairs)
    requires forall k :: k in kept ==> kept[k] >= now - windowMs
    requires pair in pairs
    ensures Key(pair.0, pair.1) in kept <==> InWindow(log, pair.0, pair.1, now - windowMs)
  {
    hide Key;
    forall a | a in log ensures KeyOf(a) == Key(pair.0, pair.1) <==> PairOf(a) == pair {
      assert PairOf(a) in pairs;
    }
  }

  function KeysOf(pairs: set<Pair>): set<Text> { set p | p in pairs :: Key(p.0, p.1) }

  lemma {:induction false} KeysCountPairs(all: iset<Pair>, pairs: set<Pair>)
    requires Separable(all) && forall p :: p in pairs ==> p in all
    ensures |KeysOf(pairs)| == |pairs|
  {
    if pairs != {} {
      hide Key;
      var p :| p in pairs;
      var k := Key(p.0, p.1);
      assert forall q :: q in pairs && q != p ==> Key(q.0, q.1) != k;
      assert KeysOf(pairs) - {k} == KeysOf(pairs - {p});
      KeysCountPairs(all, pairs - {p});
    }
  }

  lemma InKeysOf(pairs: set<Pair>, p: Pair)
    requires p in pairs
    ensures Key(p.0, p.1) in KeysOf(pairs)
  {
    hide Key;
  }

  lemma PairsOfWindow(pairs: iset<Pair>, windowMs: int, kept: Entries, log: seq<Acceptance>, now: int, p: Pair)
    requires Remembers(pairs, windowMs, kept, log, now) && p in PairsInWindow(log, now - windowMs)
    ensures Key(p.0, p.1) in kept && p in pairs
  {
    hide Key;
    var a :| a in log && a.at >= now - windowMs && (a.agentId, a.nonce) == p;
    assert KeyOf(a) == Key(p.0, p.1) && PairOf(a) == p;
  }

  lemma KeyOfWindow(pairs: iset<Pair>, windowMs: int, kept: Entries, log: seq<Acceptance>, now: int, k: Text)
    requires Remembers(pairs, windowMs, kept, log, now) && k in kept && kept[k] >= now - windowMs
    ensures k in KeysOf(PairsInWindow(log, now - windowMs))
  {
    var a :| a in log && KeyOf(a) == k && a.at == kept[k];
    hide Key, Remembers;
    assert PairOf(a) in PairsInWindow(log, now - windowMs);
    InKeysOf(PairsInWindow(log, now - windowMs), PairOf(a));
  }

  lemma KeysOfWindow(pairs: iset<Pair>, windowMs: int, kept: Entries, log: seq<Acceptance>, now: int)
    requires Remembers(pairs, windowMs, kept, log, now)
    requires forall k :: k in kept ==> kept[k] >= now - windowMs
    ensures kept.Keys == KeysOf(PairsInWindow(log, now - windowMs))
    ensures forall p :: p in PairsInWindow(log, now - windowMs) ==> p in pairs
  {
    hide Key, Remembers, PairsInWindow;
    var found := PairsInWindow(log, now - windowMs);
    forall k | k in kept ensures k in KeysOf(found) {
      KeyOfWindow(pairs, windowMs, kept, log, now, k);
    }
    forall p | p in found ensures Key(p.0, p.1) in kept && p in pairs {
      PairsOfWindow(pairs, windowMs, kept, log, now, p);
    }
  }

  lemma SizeCountsPairs(pairs: iset<Pair>, windowMs: int, kept: Entries, log: seq<Acceptance>, now: int)
    requires Remembers(pairs, windowMs, kept, log, now) && Separable(pairs)
    requires forall k :: k in kept ==> kept[k] >= now - windowMs
    ensures |kept| == |PairsInWindow(log, now - windowMs)|
  {
    hide Separable, PairsInWindow, KeysOf, Remembers;
    KeysOfWindow(pairs, windowMs, kept, log, now);
    KeysCountPairs(pairs, PairsInWindow(log, now - windowMs));
    assert |kept| == |kept.Keys|;
  }

  lemma AssertAgrees(pairs: iset<Pair>, windowMs: int, entries: Entries, log: seq<Acceptance>, clock: int, e: Event)
    requires Remembers(pairs, windowMs, entries, log, clock) && Separable(pairs)
    requires e.AssertFresh? && (e.agentId, e.nonce) in pairs && clock <= e.evictAt <= e.storeAt
    ensures Step(windowMs, entries, e).1 == LogStep(windowMs, log, e).1
    ensures Remembers(pairs, windowMs, Step(windowMs, entries, e).0, LogStep(windowMs, log, e).0, e.storeAt)
  {
    hide Key, InWindow, Remembers, Separable;
    var kept := Evict(entries, e.evictAt - windowMs);
    EvictRemembers(pairs, windowMs, entries, log, clock, e.evictAt);
    PresentIffInWindow(pairs, windowMs, kept, log, e.evictAt, (e.agentId, e.nonce));
    if Key(e.agentId, e.nonce) in kept {
      LaterStillRemembers(pairs, windowMs, kept, log, e.evictAt, e.storeAt);
    } else {
      AcceptRemembers(pairs, windowMs, kept, log, e.evictAt, Acceptance(e.agentId, e.nonce, e.storeAt));
    }
  }

  lemma StepAgrees(pairs: iset<Pair>, windowMs: int, entries: Entries, log: seq<Acceptance>, clock: int, e: Event)
    requires Remembers(pairs, windowMs, entries, log, clock) && Separable(pairs)
    requires clock <= FirstReading(e) <= LastReading(e)
    requires e.AssertFresh? ==> (e.agentId, e.nonce) in pairs
    ensures Step(windowMs, entries, e).1 == LogStep(windowMs, log, e).1
    ensures Remembers(pairs, windowMs, Step(windowMs, entries, e).0, LogStep(windowMs, log, e).0, LastReading(e))
  {
    hide Key, InWindow, PairsInWindow, Remembers, Separable;
    match e
    case AssertFresh(_, _, _, _) => AssertAgrees(pairs, windowMs, entries, log, clock, e);
    case Size(at) =>
      EvictRemembers(pairs, windowMs, entries, log, clock, at);
      SizeCountsPairs(pairs, windowMs, Evict(entries, at - windowMs), log, at);
    case TimerTick(at) =>
      EvictRemembers(pairs, windowMs, entries, log, clock, at);
  }

  lemma {:induction false} RunAgrees(pairs: iset<Pair>, windowMs: int, entries: Entries, log: seq<Acceptance>,
                                     clock: int, run: seq<Event>)
    requires Remembers(pairs, windowMs, entries, log, clock) && Separable(pairs)
    requires Clocked(run, clock) && Asks(run, pairs)
    ensures Outputs(windowMs, entries, run) == LogOutputs(windowMs, log, run)
    decreases |run|
  {
    if run != [] {
      hide Step, LogStep, Remembers, Separable;
      assert run[0] in run;
      assert forall e :: e in run[1..] ==> e in run;
      StepAgrees(pairs, windowMs, entries, log, clock, run[0]);
      RunAgrees(pairs, windowMs, Step(windowMs, entries, run[0]).0, LogStep(windowMs, log, run[0]).0,
                LastReading(run[0]), run[1..]);
    }
  }

  // ---------- Exactly when ----------

  /** Some pair asked first keeps another from being accepted, although that one was never seen. */
  function Collision(p: Pair, q: Pair): seq<Event> { [AssertFresh(p.0, p.1, 0, 0), AssertFresh(q.0, q.1, 0, 0)] }

  lemma CollisionDiffers(windowMs: int, p: Pair, q: Pair)
    requires windowMs >= 0 && p != q && Key(p.0, p.1) == Key(q.0, q.1)
    ensures Outputs(windowMs, map[], Collision(p, q)) == [Accepted, Rejected]
    ensures LogOutputs(windowMs, [], Collision(p, q)) == [Accepted, Accepted]
  {
    var first, second := AssertFresh(p.0, p.1, 0, 0), AssertFresh(q.0, q.1, 0, 0);
    var run := Collision(p, q);
    assert run[0] == first && run[1..] == [second] && [second][0] == second && [second][1..] == [];
    var log := [Acceptance(p.0, p.1, 0)];
    var entries: Entries := map[Key(p.0, p.1) := 0];
    CollisionSteps(windowMs, p, q);
    hide Step, LogStep, Key;
    assert Outputs(windowMs, entries, [second])
        == [Rejected] + Outputs(windowMs, Step(windowMs, entries, second).0, []);
    assert LogOutputs(windowMs, log, [second])
        == [Accepted] + LogOutputs(windowMs, LogStep(windowMs, log, second).0, []);
  }

  lemma CollisionSteps(windowMs: int, p: Pair, q: Pair)
    requires windowMs >= 0 && p != q && Key(p.0, p.1) == Key(q.0, q.1)
    ensures var first, second := AssertFresh(p.0, p.1, 0, 0), AssertFresh(q.0, q.1, 0, 0);
            var log, entries: Entries := [Acceptance(p.0, p.1, 0)], map[Key(p.0, p.1) := 0];
            && Step(windowMs, map[], first) == (entries, Accepted) && Step(windowMs, entries, second).1 == Rejected
            && LogStep(windowMs, [], first) == (log, Accepted) && LogStep(windowMs, log, second).1 == Accepted
  {
    hide Key;
    assert [] + [Acceptance(p.0, p.1, 0)] == [Acceptance(p.0, p.1, 0)];
    var entries: Entries := map[Key(p.0, p.1) := 0];
    assert Evict(map[], -windowMs) == map[] && Evict(entries, -windowMs) == entries;
  }

  /** Every clocked run over the pairs, whatever the timer does, answers as the log does. */
  ghost predicate Faithful(windowMs: int, pairs: iset<Pair>) {
    forall run, clock :: Clocked(run, clock) && Asks(run, pairs) ==>
      Outputs(windowMs, map[], run) == LogOutputs(windowMs, [], run)
  }

  lemma CollisionAsks(p: Pair, q: Pair, pairs: iset<Pair>)
    requires p in pairs && q in pairs
    ensures Clocked(Collision(p, q), 0) && Asks(Collision(p, q), pairs)
  {
    var run := Collision(p, q);
    assert run[1..] == [run[1]] && run[1..][1..] == [];
    assert Clocked([], 0) && Clocked(run[1..], 0);
  }

  /** Over any set of pairs, forgetting is invisible in every run exactly when no two of the pairs share a key. */
  lemma FaithfulIff(windowMs: int, pairs: iset<Pair>)
    requires windowMs >= 0
    ensures Faithful(windowMs, pairs) <==> Separable(pairs)
  {
    hide Outputs, LogOutputs, Key;
    if Separable(pairs) {
      forall run, clock | Clocked(run, clock) && Asks(run, pairs)
        ensures Outputs(windowMs, map[], run) == LogOutputs(windowMs, [], run)
      {
        RunAgrees(pairs, windowMs, map[], [], clock, run);
      }
    } else {
      var p, q :| p in pairs && q in pairs && Key(p.0, p.1) == Key(q.0, q.1) && p != q;
      CollisionDiffers(windowMs, p, q);
      CollisionAsks(p, q, pairs);
    }
  }

  /** The pairs of a DID and any nonce. */
  ghost function DidPairs(): iset<Pair> { iset p: Pair | IsDid(p.0) }

  lemma DidPairsSeparable()
    ensures Separable(DidPairs())
  {
    hide IsDid;
    forall p: Pair, q: Pair | p in DidPairs() && q in DidPairs() && Key(p.0, p.1) == Key(q.0, q.1) ensures p == q {
      KeyInjective(p.0, p.1, q.0, q.1);
    }
  }

  /** Over every run of DID agents, with the timer anywhere, the store answers as if it had never forgotten anything. */
  lemma ForgettingIsInvisible(windowMs: int, clock: int, run: seq<Event>)
    requires Clocked(run, clock) && forall e :: e in run && e.AssertFresh? ==> IsDid(e.agentId)
    ensures Outputs(windowMs, map[], run) == LogOutputs(windowMs, [], run)
  {
    hide Key, IsDid, Separable;
    DidPairsSeparable();
    RunAgrees(DidPairs(), windowMs, map[], [], clock, run);
  }

  /** Without the DID grammar two pairs can share a key, and the second is refused at once. */
  lemma OtherAgentsCanCollide()
    ensures !Separable(iset{(Units("a"), Units("b:c")), (Units("a:b"), Units("c"))})
    ensures Outputs(10, map[], Collision((Units("a"), Units("b:c")), (Units("a:b"), Units("c"))))
        == [Accepted, Rejected]
    ensures LogOutputs(10, [], Collision((Units("a"), Units("b:c")), (Units("a:b"), Units("c"))))
        == [Accepted, Accepted]
  {
    var p, q: Pair := (Units("a"), Units("b:c")), (Units("a:b"), Units("c"));
    assert Key(p.0, p.1) == Key(q.0, q.1);
    assert |p.0| != |q.0|;
    CollisionDiffers(10, p, q);
    hide Key, Outputs, LogOutputs, Collision;
  }
}
