/**
 * The retried contract calls of src/modules/identity/identity.service.ts, when an
 * attempt may fail before sending, lose the reply after mining, or be mined late.
 */
module Registration {
  import opened Wrappers
  import opened AgentRegistry
  import Retry

  // ---------- The chain, as one signer sees it ----------

  /**
   * Transactions sent by the signer whose fate it does not know, and the successful registrations logged for the
   * DID.
   */
  datatype World = World(agents: Agents, pending: seq<Transaction>, registrations: seq<int>, attempt: nat)

  /** Something that happens on chain while the signer waits. */
  datatype Happening =
    | Other(tx: Transaction)
    | MinedLate(index: nat, timestamp: int)

  /** How one attempt goes. The messages are whatever the provider says. */
  datatype Fate =
    | NotSent(message: string)
    | Mined(timestamp: int, lostReply: Option<string>)
    | LeftPending(message: string)

  datatype Attempt = Attempt(before: seq<Happening>, fate: Fate, after: seq<Happening>)

  datatype Receipt = Receipt(timestamp: int)

  function Stamped(tx: Transaction, timestamp: int): Transaction {
    if tx.RegisterAgent? then tx.(timestamp := timestamp) else tx
  }

  /** Every successful `registerAgent` for the DID emits one AgentRegistered event. */
  function Mine(w: World, did: string, tx: Transaction): World {
    w.(agents := Commit(w.agents, tx),
       registrations := w.registrations
                        + if Registers(tx, did) && Apply(w.agents, tx).Ok? then [tx.timestamp] else [])
  }

  function Happen(w: World, did: string, h: Happening): World {
    match h
    case Other(tx) => Mine(w, did, tx)
    case MinedLate(i, timestamp) =>
      if i >= |w.pending| then w
      else Mine(w.(pending := w.pending[..i] + w.pending[i + 1..]), did, Stamped(w.pending[i], timestamp))
  }

  function HappenAll(w: World, did: string, hs: seq<Happening>): World
    decreases |hs|
  {
    if hs == [] then w else HappenAll(Happen(w, did, hs[0]), did, hs[1..])
  }

  /** Sends the transaction and waits for its receipt, with the fate that the attempt meets. */
  function Meet(w: World, ours: Transaction, fate: Fate): (World, Result<Receipt, string>) {
    match fate
    case NotSent(message) => (w, Err(message))
    case LeftPending(message) => (w.(pending := w.pending + [ours]), Err(message))
    case Mined(timestamp, lostReply) =>
      var tx := Stamped(ours, timestamp);
      var reply := match Apply(w.agents, tx) case Ok(_) => Ok(Receipt(timestamp)) case Err(reason) => Err(reason);
      (Mine(w, ours.did, tx), if lostReply.Some? then Err(lostReply.value) else reply)
  }

  function Try(script: nat -> Attempt, ours: Transaction, w: World): (World, Result<Receipt, string>) {
    var a := script(w.attempt);
    var met := Meet(HappenAll(w.(attempt := w.attempt + 1), ours.did, a.before), ours, a.fate);
    (HappenAll(met.0, ours.did, a.after), met.1)
  }

  function Operation(script: nat -> Attempt, ours: Transaction): Retry.Operation<World, Receipt, string> {
    (w: World) => Try(script, ours, w)
  }

  /** `withRetry(..., {}, this.logger)`. */
  function Call(script: nat -> Attempt, random: nat -> real, ours: Transaction, w: World)
    : Retry.Trace<World, Receipt, string>
  {
    Retry.Retried(Operation(script, ours), Retry.DEFAULTS, Retry.IsTransientError, random, w, 0,
                  Retry.DEFAULTS.initialDelayMs)
  }

  // ---------- What the rest of the world does not do ----------

  /** No one else registers the DID, and the signer itself does nothing else for it meanwhile. */
  predicate Foreign(tx: Transaction, ours: Transaction) {
    tx.did != ours.did || (tx.sender != ours.sender && !tx.RegisterAgent?)
  }

  predicate ForeignOnly(hs: seq<Happening>, ours: Transaction) {
    forall i :: 0 <= i < |hs| && hs[i].Other? ==> Foreign(hs[i].tx, ours)
  }

  predicate FairScript(script: nat -> Attempt, ours: Transaction, upTo: nat) {
    forall k :: 0 <= k < upTo ==> ForeignOnly(script(k).before, ours) && ForeignOnly(script(k).after, ours)
  }

  ghost predicate Fair(script: nat -> Attempt, ours: Transaction) { forall k: nat :: FairScript(script, ours, k) }

  // ---------- The transaction takes effect once and for good ----------

  /** The effect the signer asked for. */
  predicate Done(agents: Agents, ours: Transaction) {
    var id := Keccak256(ours.did);
    id in agents && agents[id].owner == ours.sender
    && match ours
       case RegisterAgent(_, _, key, endpoint, _) => agents[id].publicKey == key && agents[id].endpoint == endpoint
       case UpdateAgent(_, _, key, endpoint) => agents[id].publicKey == key && agents[id].endpoint == endpoint
       case DeactivateAgent(_, _) => !agents[id].active
  }

  /** For a registration: nothing recorded yet, or exactly one record, ours, made by the one event. */
  predicate AtMostOnce(w: World, ours: Transaction) {
    ours.RegisterAgent? ==>
      var id := Keccak256(ours.did);
      if id !in w.agents then w.registrations == []
      else
        Done(w.agents, ours) && |w.registrations| == 1
        && w.agents[id] == AgentInfo(ours.sender, ours.did, ours.publicKey, ours.endpoint, true, w.registrations[0])
  }

  predicate Inv(w: World, ours: Transaction) {
    AtMostOnce(w, ours) && Consistent(w.agents)
    && forall i :: 0 <= i < |w.pending| ==> w.pending[i] == ours
  }

  /** From one world to a later one nothing that was done is undone, and no registration is replaced. */
  predicate Grows(w: World, later: World, ours: Transaction) {
    && (Done(w.agents, ours) ==> Done(later.agents, ours))
    && (ours.RegisterAgent? && Keccak256(ours.did) in w.agents ==>
          Keccak256(ours.did) in later.agents && later.agents[Keccak256(ours.did)] == w.agents[Keccak256(ours.did)]
          && later.registrations == w.registrations)
  }

  predicate Good(w: World, later: World, ours: Transaction) { Inv(later, ours) && Grows(w, later, ours) }

  lemma GoodTransitive(a: World, b: World, c: World, ours: Transaction)
    requires Good(a, b, ours) && Good(b, c, ours)
    ensures Good(a, c, ours)
  {
  }

  lemma ForeignIsGood(w: World, ours: Transaction, tx: Transaction)
    requires Inv(w, ours) && Foreign(tx, ours)
    ensures Good(w, Mine(w, ours.did, tx), ours)
  {
    if tx.did != ours.did {
      CommitElsewhere(w.agents, tx, ours.did);
    }
    CommitContinues(w.agents, tx, Keccak256(ours.did));
  }

  lemma OursIsGood(w: World, ours: Transaction, timestamp: int)
    requires Inv(w, ours)
    ensures Good(w, Mine(w, ours.did, Stamped(ours, timestamp)), ours)
    ensures Apply(w.agents, Stamped(ours, timestamp)).Ok? ==>
              Done(Mine(w, ours.did, Stamped(ours, timestamp)).agents, ours)
  {
    CommitContinues(w.agents, Stamped(ours, timestamp), Keccak256(ours.did));
  }

  lemma HappenIsGood(w: World, ours: Transaction, h: Happening)
    requires Inv(w, ours) && (h.Other? ==> Foreign(h.tx, ours))
    ensures Good(w, Happen(w, ours.did, h), ours)
  {
    hide Mine, Stamped, Foreign;
    match h
    case Other(tx) => ForeignIsGood(w, ours, tx);
    case MinedLate(i, timestamp) =>
      if i < |w.pending| {
        var taken := w.(pending := w.pending[..i] + w.pending[i + 1..]);
        assert Inv(taken, ours);
        OursIsGood(taken, ours, timestamp);
      }
  }

  lemma {:induction false} HappenAllIsGood(w: World, ours: Transaction, hs: seq<Happening>)
    requires Inv(w, ours) && ForeignOnly(hs, ours)
    ensures Good(w, HappenAll(w, ours.did, hs), ours)
    ensures HappenAll(w, ours.did, hs).attempt == w.attempt
    decreases |hs|
  {
    hide Inv, Grows, Foreign;
    if hs == [] {
      InvIsGood(w, ours);
    } else {
      HappenIsGood(w, ours, hs[0]);
      HappenAllIsGood(Happen(w, ours.did, hs[0]), ours, hs[1..]);
      GoodTransitive(w, Happen(w, ours.did, hs[0]), HappenAll(w, ours.did, hs), ours);
    }
  }

  lemma InvIsGood(w: World, ours: Transaction)
    requires Inv(w, ours)
    ensures Good(w, w, ours)
  {
  }

  lemma MeetIsGood(w: World, ours: Transaction, fate: Fate)
    requires Inv(w, ours)
    ensures Good(w, Meet(w, ours, fate).0, ours)
    ensures Meet(w, ours, fate).1.Ok? ==> Done(Meet(w, ours, fate).0.agents, ours)
    ensures Meet(w, ours, fate).0.attempt == w.attempt
  {
    match fate
    case Mined(timestamp, _) => OursIsGood(w, ours, timestamp);
    case _ =>
  }

  lemma TryIsGood(script: nat -> Attempt, ours: Transaction, w: World)
    requires Inv(w, ours) && Fair(script, ours)
    ensures Good(w, Try(script, ours, w).0, ours)
    ensures Try(script, ours, w).1.Ok? ==> Done(Try(script, ours, w).0.agents, ours)
  {
    hide Inv, Grows, Meet, ForeignOnly, Done;
    assert FairScript(script, ours, w.attempt + 1);
    var a := script(w.attempt);
    var w0 := w.(attempt := w.attempt + 1);
    NextAttempt(w, ours);
    HappenAllIsGood(w0, ours, a.before);
    var w1 := HappenAll(w0, ours.did, a.before);
    GoodTransitive(w, w0, w1, ours);
    MeetIsGood(w1, ours, a.fate);
    var w2 := Meet(w1, ours, a.fate).0;
    GoodTransitive(w, w1, w2, ours);
    HappenAllIsGood(w2, ours, a.after);
    GoodTransitive(w, w2, HappenAll(w2, ours.did, a.after), ours);
    GoodKeepsDone(w2, HappenAll(w2, ours.did, a.after), ours);
  }

  lemma NextAttempt(w: World, ours: Transaction)
    requires Inv(w, ours)
    ensures Good(w, w.(attempt := w.attempt + 1), ours)
  {
  }

  lemma GoodKeepsDone(w: World, later: World, ours: Transaction)
    requires Good(w, later, ours)
    ensures Done(w.agents, ours) ==> Done(later.agents, ours)
  {
  }

  lemma {:induction false} RetriedIsGood(script: nat -> Attempt, random: nat -> real, ours: Transaction, w: World,
                                         attempt: nat, delay: real)
    requires Inv(w, ours) && Fair(script, ours)
    ensures var t := Retry.Retried(Operation(script, ours), Retry.DEFAULTS, Retry.IsTransientError, random, w,
                                   attempt, delay);
            Good(w, t.world, ours) && (t.outcome.Returned? ==> Done(t.world.agents, ours))
    decreases Retry.DEFAULTS.maxAttempts - attempt
  {
    hide Inv, Grows, Try, Done, Retry.NextDelay, Retry.Wait, Retry.IsTransientError;
    InvIsGood(w, ours);
    if attempt < Retry.DEFAULTS.maxAttempts {
      TryIsGood(script, ours, w);
      var next := Try(script, ours, w).0;
      var slower := Retry.NextDelay(Retry.DEFAULTS, delay);
      assert Operation(script, ours)(w) == Try(script, ours, w);
      RetriedIsGood(script, random, ours, next, attempt + 1, slower);
      var rest := Retry.Retried(Operation(script, ours), Retry.DEFAULTS, Retry.IsTransientError, random, next,
                                attempt + 1, slower);
      GoodTransitive(w, next, rest.world, ours);
    }
  }

  /**
   * Whatever each attempt meets, and whatever happens after the call: the DID is
   * registered at most once, its record is never overwritten, and once the call
   * resolves the record is there with the given key and endpoint, for good.
   */
  lemma RegistersOnce(script: nat -> Attempt, random: nat -> real, ours: Transaction, w: World, later: seq<Happening>)
    requires ours.RegisterAgent? && Fair(script, ours) && ForeignOnly(later, ours)
    requires Consistent(w.agents) && Keccak256(ours.did) !in w.agents && w.registrations == [] && w.pending == []
    ensures var t := Call(script, random, ours, w);
            var end := HappenAll(t.world, ours.did, later);
            var id := Keccak256(ours.did);
            && |end.registrations| <= 1
            && (id in t.world.agents ==> id in end.agents && end.agents[id] == t.world.agents[id])
            && (id in end.agents ==>
                 end.registrations != []
                 && end.agents[id] == AgentInfo(ours.sender, ours.did, ours.publicKey, ours.endpoint, true,
                                                end.registrations[0]))
            && (t.outcome.Returned? ==> id in t.world.agents)
  {
    hide HappenAll, Retry.Retried;
    RetriedIsGood(script, random, ours, w, 0, Retry.DEFAULTS.initialDelayMs);
    HappenAllIsGood(Call(script, random, ours, w).world, ours, later);
  }

  /**
   * The retried updates and deactivations: when the call resolves the change is on chain, and late duplicates do
   * not undo it.
   */
  lemma ResolvedMeansDone(script: nat -> Attempt, random: nat -> real, ours: Transaction, w: World,
                          later: seq<Happening>)
    requires !ours.RegisterAgent? && Fair(script, ours) && ForeignOnly(later, ours)
    requires Consistent(w.agents) && w.pending == []
    requires Call(script, random, ours, w).outcome.Returned?
    ensures Done(HappenAll(Call(script, random, ours, w).world, ours.did, later).agents, ours)
  {
    hide HappenAll, Retry.Retried;
    RetriedIsGood(script, random, ours, w, 0, Retry.DEFAULTS.initialDelayMs);
    HappenAllIsGood(Call(script, random, ours, w).world, ours, later);
  }
}
