/** src/modules/identity/identity.service.ts: the agents table, with the chain calls that may fail behind it. */
module IdentityService {
  import opened Wrappers
  import AgentRegistry
  import Registration
  import Retry

  datatype Status = Active | Inactive

  datatype Agent = Agent(agentDid: string, owner: string, publicKey: string, endpoint: string, status: Status)

  datatype RegisterDto = RegisterDto(agentDid: string, owner: string, publicKey: string, endpoint: string,
                                     status: Option<Status>)

  datatype UpdateDto = UpdateDto(publicKey: Option<string>, endpoint: Option<string>, status: Option<Status>)

  /** Refused: the unique column rejects the save. */
  datatype Failure = Forbidden | Conflict | NotFound | Refused

  type Rows = map<string, Agent>

  predicate Taken(rows: Rows, did: string) { exists id :: id in rows && rows[id].agentDid == did }

  /** The unique column agentDid. */
  predicate UniqueDids(rows: Rows) {
    forall i, j :: i in rows && j in rows && rows[i].agentDid == rows[j].agentDid ==> i == j
  }

  lemma UniquePart(rows: Rows, more: Rows)
    requires UniqueDids(rows + more) && more.Keys !! rows.Keys
    ensures UniqueDids(rows)
  {
    assert forall id :: id in rows ==> id in rows + more && (rows + more)[id] == rows[id];
  }

  function ToLower(s: string): string { seq(|s|, i requires 0 <= i < |s| => Retry.Fold(s[i])) }

  function Or<T>(given: Option<T>, otherwise: T): T { if given.Some? then given.value else otherwise }

  /** `Object.assign(agent, data)` */
  function Assign(agent: Agent, data: UpdateDto): Agent {
    agent.(publicKey := Or(data.publicKey, agent.publicKey), endpoint := Or(data.endpoint, agent.endpoint),
           status := Or(data.status, agent.status))
  }

  predicate Truthy(s: Option<string>) { s.Some? && s.value != "" }

  /** What the network does to the chain call of a request. */
  datatype Network = Network(script: nat -> Registration.Attempt, random: nat -> real)

  /**
   * The `if (this.registryAddress) try { ... } catch { ... }` around every chain call: the world after it, and
   * whether it resolved.
   */
  function Chained(registryAddress: string, tx: AgentRegistry.Transaction, network: Network, chain: Registration.World)
    : (Registration.World, bool)
  {
    if registryAddress == "" then (chain, false)
    else
      var t := Registration.Call(network.script, network.random, tx, chain);
      (t.world, t.outcome.Returned?)
  }

  class IdentityService {
    var rows: Rows
    const registryAddress: string
    const signer: AgentRegistry.Sender

    constructor (registryAddress: string, signer: AgentRegistry.Sender)
      ensures rows == map[] && this.registryAddress == registryAddress && this.signer == signer
    {
      rows, this.registryAddress, this.signer := map[], registryAddress, signer;
    }

    method CallRegistry(tx: AgentRegistry.Transaction, network: Network, chain: Registration.World)
      returns (after: Registration.World, resolved: bool)
      ensures (after, resolved) == Chained(registryAddress, tx, network, chain)
    {
      if registryAddress == "" {
        return chain, false;
      }
      var t := Retry.WithRetry(Registration.Operation(network.script, tx), Retry.DEFAULTS, Retry.IsTransientError,
                               network.random, chain);
      return t.world, t.outcome.Returned?;
    }

    /**
     * `controls`: the signature proves control of the owner address. `id` is the fresh
     * row id, and `meanwhile` are the rows that other registrations add between the
     * lookup of the DID and the save, which the unique column may then refuse.
     */
    method Register(data: RegisterDto, controls: bool, id: string, meanwhile: Rows, network: Network,
                    chain: Registration.World)
      returns (r: Result<Agent, Failure>, after: Registration.World, resolved: bool)
      requires id !in rows && id !in meanwhile && meanwhile.Keys !! rows.Keys
      requires UniqueDids(rows + meanwhile)
      modifies this
      ensures UniqueDids(rows)
      ensures r.Err? ==> after == chain && !resolved
      ensures r == Err(Forbidden) <==> !controls
      ensures r == Err(Conflict) <==> controls && Taken(old(rows), data.agentDid)
      ensures r == Err(Refused) <==>
                controls && !Taken(old(rows), data.agentDid) && Taken(old(rows) + meanwhile, data.agentDid)
      ensures r.Err? ==> r.error != NotFound && rows == if r.error.Refused? then old(rows) + meanwhile else old(rows)
      ensures r.Ok? ==> rows == (old(rows) + meanwhile)[id := r.value] && r.value == RowOf(data)
      ensures r.Ok? ==> (after, resolved) == Chained(registryAddress, RegistrationOf(signer, r.value), network, chain)
    {
      if !controls {
        UniquePart(rows, meanwhile);
        return Err(Forbidden), chain, false;
      }
      if Taken(rows, data.agentDid) {
        UniquePart(rows, meanwhile);
        return Err(Conflict), chain, false;
      }
      var saved := RowOf(data);
      rows := rows + meanwhile;
      if Taken(rows, saved.agentDid) {
        return Err(Refused), chain, false;
      }
      rows := rows[id := saved];
      after, resolved := CallRegistry(RegistrationOf(signer, saved), network, chain);
      return Ok(saved), after, resolved;
    }

    method Update(id: string, data: UpdateDto, network: Network, chain: Registration.World)
      returns (r: Result<Agent, Failure>, after: Registration.World, resolved: bool)
      requires UniqueDids(rows)
      modifies this
      ensures UniqueDids(rows)
      ensures r == (if id in old(rows) then Ok(Assign(old(rows)[id], data)) else Err(NotFound))
      ensures rows == if r.Ok? then old(rows)[id := r.value] else old(rows)
      ensures (after, resolved) == (if r.Ok? && (Truthy(data.publicKey) || Truthy(data.endpoint))
                                    then Chained(registryAddress, UpdateOf(signer, r.value), network, chain)
                                    else (chain, false))
    {
      if id !in rows {
        return Err(NotFound), chain, false;
      }
      var saved := Assign(rows[id], data);
      rows := rows[id := saved];
      after, resolved := chain, false;
      if Truthy(data.publicKey) || Truthy(data.endpoint) {
        after, resolved := CallRegistry(UpdateOf(signer, saved), network, chain);
      }
      return Ok(saved), after, resolved;
    }

    method Deactivate(id: string, network: Network, chain: Registration.World)
      returns (r: Result<Agent, Failure>, after: Registration.World, resolved: bool)
      requires UniqueDids(rows)
      modifies this
      ensures UniqueDids(rows)
      ensures r == (if id in old(rows) then Ok(old(rows)[id].(status := Inactive)) else Err(NotFound))
      ensures rows == if r.Ok? then old(rows)[id := r.value] else old(rows)
      ensures (after, resolved) == (if r.Ok?
                                    then Chained(registryAddress, DeactivationOf(signer, r.value), network, chain)
                                    else (chain, false))
    {
      if id !in rows {
        return Err(NotFound), chain, false;
      }
      var saved := rows[id].(status := Inactive);
      rows := rows[id := saved];
      after, resolved := CallRegistry(DeactivationOf(signer, saved), network, chain);
      return Ok(saved), after, resolved;
    }
  }

  function RowOf(data: RegisterDto): Agent {
    Agent(data.agentDid, ToLower(data.owner), data.publicKey, data.endpoint, Or(data.status, Active))
  }

  function RegistrationOf(signer: AgentRegistry.Sender, saved: Agent): AgentRegistry.Transaction {
    AgentRegistry.RegisterAgent(signer, saved.agentDid, saved.publicKey, saved.endpoint, 0)
  }

  function UpdateOf(signer: AgentRegistry.Sender, saved: Agent): AgentRegistry.Transaction {
    AgentRegistry.UpdateAgent(signer, saved.agentDid, saved.publicKey, saved.endpoint)
  }

  function DeactivationOf(signer: AgentRegistry.Sender, saved: Agent): AgentRegistry.Transaction {
    AgentRegistry.DeactivateAgent(signer, saved.agentDid)
  }

  /** When the chain call of a registration resolves, the record on chain and the row agree, and they do so for good. */
  lemma RegistrationAgrees(registryAddress: string, signer: AgentRegistry.Sender, data: RegisterDto, network: Network,
                           chain: Registration.World, later: seq<Registration.Happening>)
    requires Registration.Fair(network.script, RegistrationOf(signer, RowOf(data)))
    requires Registration.ForeignOnly(later, RegistrationOf(signer, RowOf(data)))
    requires AgentRegistry.Consistent(chain.agents) && AgentRegistry.Keccak256(data.agentDid) !in chain.agents
    requires chain.registrations == [] && chain.pending == []
    ensures var (after, resolved) := Chained(registryAddress, RegistrationOf(signer, RowOf(data)), network, chain);
            var end := Registration.HappenAll(after, data.agentDid, later);
            var row, record := RowOf(data), AgentRegistry.At(end.agents, AgentRegistry.Keccak256(data.agentDid));
            resolved ==>
              && record.did == row.agentDid && record.publicKey == row.publicKey && record.endpoint == row.endpoint
              && record.owner == signer && record.active
              && end.registrations == [record.registeredAt]
  {
    hide Registration.Call, Registration.HappenAll;
    Registration.RegistersOnce(network.script, network.random, RegistrationOf(signer, RowOf(data)), chain, later);
  }
}
