/** contracts/src/AgentRegistry.sol as a state machine, against the history of its transactions. */
module AgentRegistry {
  import opened Wrappers

  type Address = int

  const ZERO_ADDRESS: Address := 0

  /** No transaction is sent from the zero address. */
  type Sender = a: Address | a != ZERO_ADDRESS witness 1

  /** keccak256 of the packed DID, collision-free. */
  datatype AgentId = Keccak256(did: string)

  datatype AgentInfo = AgentInfo(owner: Address, did: string, publicKey: string, endpoint: string, active: bool,
                                 registeredAt: int)

  /** What a mapping holds where nothing was stored. */
  const EMPTY_INFO := AgentInfo(ZERO_ADDRESS, "", "", "", false, 0)

  type Agents = map<AgentId, AgentInfo>

  function At(agents: Agents, id: AgentId): AgentInfo { if id in agents then agents[id] else EMPTY_INFO }

  datatype Transaction =
    | RegisterAgent(sender: Sender, did: string, publicKey: string, endpoint: string, timestamp: int)
    | UpdateAgent(sender: Sender, did: string, publicKey: string, endpoint: string)
    | DeactivateAgent(sender: Sender, did: string)

  /** The agents afterwards, or the revert reason. */
  function Apply(agents: Agents, tx: Transaction): Result<Agents, string> {
    var id := Keccak256(tx.did);
    match tx
    case RegisterAgent(sender, did, publicKey, endpoint, timestamp) =>
      if At(agents, id).owner != ZERO_ADDRESS then Err("Agent already registered")
      else Ok(agents[id := AgentInfo(sender, did, publicKey, endpoint, true, timestamp)])
    case UpdateAgent(sender, did, publicKey, endpoint) =>
      if At(agents, id).owner != sender then Err("Not agent owner")
      else if !At(agents, id).active then Err("Agent is not active")
      else Ok(agents[id := At(agents, id).(publicKey := publicKey, endpoint := endpoint)])
    case DeactivateAgent(sender, did) =>
      if At(agents, id).owner != sender then Err("Not agent owner")
      else if !At(agents, id).active then Err("Agent already inactive")
      else Ok(agents[id := At(agents, id).(active := false)])
  }

  /** A reverted transaction changes nothing. */
  function Commit(agents: Agents, tx: Transaction): Agents {
    match Apply(agents, tx) case Ok(next) => next case Err(_) => agents
  }

  // ---------- The contract ----------

  class AgentRegistry {
    var agents: Agents

    constructor ()
      ensures agents == map[]
    {
      agents := map[];
    }

    method RegisterAgent(sender: Sender, timestamp: int, did: string, publicKey: string, endpoint: string)
      returns (r: Result<(), string>)
      modifies this
      ensures agents == Commit(old(agents), Transaction.RegisterAgent(sender, did, publicKey, endpoint, timestamp))
      ensures r.Ok? <==> Apply(old(agents), Transaction.RegisterAgent(sender, did, publicKey, endpoint, timestamp)).Ok?
      ensures r.Err? ==>
                r.error
                == Apply(old(agents), Transaction.RegisterAgent(sender, did, publicKey, endpoint, timestamp)).error
    {
      var agentId := Keccak256(did);
      if At(agents, agentId).owner != ZERO_ADDRESS {
        return Err("Agent already registered");
      }
      agents := agents[agentId := AgentInfo(sender, did, publicKey, endpoint, true, timestamp)];
      return Ok(());
    }

    method UpdateAgent(sender: Sender, did: string, publicKey: string, endpoint: string) returns (r: Result<(), string>)
      modifies this
      ensures agents == Commit(old(agents), Transaction.UpdateAgent(sender, did, publicKey, endpoint))
      ensures r.Ok? <==> Apply(old(agents), Transaction.UpdateAgent(sender, did, publicKey, endpoint)).Ok?
      ensures r.Err? ==> r.error == Apply(old(agents), Transaction.UpdateAgent(sender, did, publicKey, endpoint)).error
    {
      var agentId := Keccak256(did);
      if At(agents, agentId).owner != sender {
        return Err("Not agent owner");
      }
      if !At(agents, agentId).active {
        return Err("Agent is not active");
      }
      agents := agents[agentId := agents[agentId].(publicKey := publicKey)];
      agents := agents[agentId := agents[agentId].(endpoint := endpoint)];
      return Ok(());
    }

    method DeactivateAgent(sender: Sender, did: string) returns (r: Result<(), string>)
      modifies this
      ensures agents == Commit(old(agents), Transaction.DeactivateAgent(sender, did))
      ensures r.Ok? <==> Apply(old(agents), Transaction.DeactivateAgent(sender, did)).Ok?
      ensures r.Err? ==> r.error == Apply(old(agents), Transaction.DeactivateAgent(sender, did)).error
    {
      var agentId := Keccak256(did);
      if At(agents, agentId).owner != sender {
        return Err("Not agent owner");
      }
      if !At(agents, agentId).active {
        return Err("Agent already inactive");
      }
      agents := agents[agentId := agents[agentId].(active := false)];
      return Ok(());
    }

    method GetAgent(did: string) returns (r: Result<AgentInfo, string>)
      ensures r.Ok? <==> At(agents, Keccak256(did)).owner != ZERO_ADDRESS
      ensures r.Ok? ==> r.value == At(agents, Keccak256(did))
    {
      var agentId := Keccak256(did);
      if At(agents, agentId).owner == ZERO_ADDRESS {
        return Err("Agent not found");
      }
      return Ok(agents[agentId]);
    }
  }

  // ---------- All contract runs ----------

  function After(run: seq<Transaction>): Agents
    decreases |run|
  {
    if run == [] then map[] else Commit(After(run[..|run| - 1]), run[|run| - 1])
  }

  predicate Registers(tx: Transaction, did: string) { tx.RegisterAgent? && tx.did == did }

  predicate Updates(tx: Transaction, did: string, owner: Address) {
    tx.UpdateAgent? && tx.did == did && tx.sender == owner
  }

  predicate Deactivates(tx: Transaction, did: string, owner: Address) {
    tx.DeactivateAgent? && tx.did == did && tx.sender == owner
  }

  /** Transaction `k` of the run is the first to register the DID. */
  predicate FirstRegistration(run: seq<Transaction>, did: string, k: nat) {
    k < |run| && Registers(run[k], did) && forall j :: 0 <= j < k ==> !Registers(run[j], did)
  }

  /** The owner deactivated the agent between the transactions `k` and `m`. */
  predicate DeactivatedBetween(run: seq<Transaction>, did: string, owner: Address, k: nat, m: nat)
    requires m <= |run|
  {
    exists d :: k < d < m && Deactivates(run[d], did, owner)
  }

  /** Transaction `w` wrote key and endpoint: the registration `k`, or an update by the owner of the active agent. */
  predicate Writes(run: seq<Transaction>, did: string, owner: Address, k: nat, w: nat) {
    k <= w < |run| && !run[w].DeactivateAgent?
    && (w == k || (Updates(run[w], did, owner) && !DeactivatedBetween(run, did, owner, k, w)))
  }

  /** The record that the history of the DID calls for: registration `k`, last write `w`. */
  predicate Describes(run: seq<Transaction>, did: string, k: nat, w: nat, info: AgentInfo) {
    && FirstRegistration(run, did, k)
    && info.owner == run[k].sender && info.did == did && info.registeredAt == run[k].timestamp
    && info.active == !DeactivatedBetween(run, did, info.owner, k, |run|)
    && Writes(run, did, info.owner, k, w)
    && info.publicKey == run[w].publicKey && info.endpoint == run[w].endpoint
    && forall m :: w < m < |run| ==> !Writes(run, did, info.owner, k, m)
  }

  lemma CommitElsewhere(agents: Agents, tx: Transaction, did: string)
    requires tx.did != did
    ensures At(Commit(agents, tx), Keccak256(did)) == At(agents, Keccak256(did))
  {
  }

  lemma UnregisteredStep(run: seq<Transaction>, tx: Transaction, did: string) returns (k: nat, w: nat)
    requires forall j :: 0 <= j < |run| ==> !Registers(run[j], did)
    requires At(After(run), Keccak256(did)) == EMPTY_INFO
    ensures var info := At(Commit(After(run), tx), Keccak256(did));
            if Registers(tx, did) then Describes(run + [tx], did, k, w, info) else info == EMPTY_INFO
  {
    k, w := |run|, |run|;
  }

  /** What stays true of the earlier transactions when one more comes. */
  lemma PrefixFacts(run: seq<Transaction>, tx: Transaction, did: string, owner: Address, k: nat)
    ensures forall m :: k <= m <= |run| ==>
              (DeactivatedBetween(run + [tx], did, owner, k, m) <==> DeactivatedBetween(run, did, owner, k, m))
    ensures forall m :: k <= m < |run| ==> (Writes(run + [tx], did, owner, k, m) <==> Writes(run, did, owner, k, m))
    ensures k < |run| ==>
              (DeactivatedBetween(run + [tx], did, owner, k, |run| + 1) <==>
               DeactivatedBetween(run, did, owner, k, |run|) || Deactivates(tx, did, owner))
  {
    var next := run + [tx];
    forall m | k <= m <= |run|
      ensures DeactivatedBetween(next, did, owner, k, m) <==> DeactivatedBetween(run, did, owner, k, m)
    {
      assert forall d :: k < d < m ==> next[d] == run[d];
    }
    assert next[|run|] == tx;
    if Deactivates(tx, did, owner) && k < |run| {
      assert Deactivates(next[|run|], did, owner);
    }
  }

  lemma RegisteredStep(run: seq<Transaction>, tx: Transaction, did: string, k: nat, w: nat) returns (w': nat)
    requires Describes(run, did, k, w, At(After(run), Keccak256(did)))
    ensures Describes(run + [tx], did, k, w', At(Commit(After(run), tx), Keccak256(did)))
  {
    var owner := run[k].sender;
    var next := run + [tx];
    PrefixFacts(run, tx, did, owner, k);
    assert FirstRegistration(next, did, k);
    assert next[|run|] == tx && next[w] == run[w];
    hide DeactivatedBetween;
    if Writes(next, did, owner, k, |run|) {
      w' := |run|;
    } else {
      w' := w;
    }
  }

  lemma AfterAppend(run: seq<Transaction>, tx: Transaction)
    ensures After(run + [tx]) == Commit(After(run), tx)
  {
    assert (run + [tx])[..|run|] == run;
  }

  /**
   * Every record is what the transactions for its DID say: owner and time of the
   * first registration, key and endpoint of the last write by that owner before the
   * first deactivation by that owner, active until then. Nothing else ever matters.
   */
  lemma {:induction false} HistoryDecides(run: seq<Transaction>, did: string)
    ensures if exists j :: 0 <= j < |run| && Registers(run[j], did)
            then exists k: nat, w: nat :: Describes(run, did, k, w, At(After(run), Keccak256(did)))
            else At(After(run), Keccak256(did)) == EMPTY_INFO
    decreases |run|
  {
    if run != [] {
      var n := |run| - 1;
      var shorter, tx := run[..n], run[n];
      assert run == shorter + [tx];
      HistoryDecides(shorter, did);
      AfterAppend(shorter, tx);
      hide Describes, Apply, Commit, After;
      if j :| 0 <= j < n && Registers(shorter[j], did) {
        var k: nat, w: nat :| Describes(shorter, did, k, w, At(After(shorter), Keccak256(did)));
        assert Registers(run[j], did);
        var w' := RegisteredStep(shorter, tx, did, k, w);
      } else {
        assert forall j :: 0 <= j < n ==> run[j] == shorter[j];
        var k, w := UnregisteredStep(shorter, tx, did);
      }
    }
  }

  // ---------- What never changes ----------

  /** The owner, the DID and the time of registration stay; an inactive record stays as it is. */
  predicate Continues(before: AgentInfo, after: AgentInfo) {
    && after.owner == before.owner && after.did == before.did && after.registeredAt == before.registeredAt
    && (!before.active ==> after == before)
  }

  /** A stored record keeps its DID and has an owner. */
  predicate Consistent(agents: Agents) {
    forall id :: id in agents ==> agents[id].owner != ZERO_ADDRESS && agents[id].did == id.did
  }

  lemma CommitContinues(agents: Agents, tx: Transaction, id: AgentId)
    requires Consistent(agents)
    ensures Consistent(Commit(agents, tx))
    ensures id in agents ==> id in Commit(agents, tx) && Continues(agents[id], Commit(agents, tx)[id])
  {
  }

  lemma {:induction false} RunContinues(run: seq<Transaction>, n: nat, id: AgentId)
    requires n <= |run|
    ensures Consistent(After(run))
    ensures id in After(run[..n]) ==> id in After(run) && Continues(After(run[..n])[id], After(run)[id])
    decreases |run|
  {
    if n == |run| {
      assert run[..n] == run;
    }
    if run != [] {
      hide Apply, Commit;
      var last := |run| - 1;
      assert run == run[..last] + [run[last]];
      AfterAppend(run[..last], run[last]);
      if n < |run| {
        assert run[..last][..n] == run[..n];
        RunContinues(run[..last], n, id);
      } else {
        RunContinues(run[..last], last, id);
      }
      CommitContinues(After(run[..last]), run[last], id);
    }
  }
}
