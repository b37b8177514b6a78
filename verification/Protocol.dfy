/**
 * `handleRequest` of src/modules/protocol/protocol.service.ts with the appends of
 * src/modules/metering/metering.service.ts: many requests, each stopping at any await.
 */
module Protocol {
  import opened Wrappers
  import opened Utf16
  import opened Json
  import opened Canonicalization
  import opened Did
  import NonceStore
  import Policy

  // ---------- A request ----------

  /** An optional Text of the request body; validation lets an explicit null through. */
  datatype Optional = Absent | ExplicitNull | Given(text: Text)

  /** The validated body. */
  datatype Dto = Dto(
    agentFromId: Text,
    agentToId: Text,
    sessionId: Text,
    requestPayload: Json,
    maxBudget: Number,
    policyDigest: Optional,
    nonce: Optional)

  /** Two DIDs, and a payload that is a JavaScript value. */
  predicate Validated(dto: Dto) { IsDid(dto.agentFromId) && IsDid(dto.agentToId) && WellFormed(dto.requestPayload) }

  function FieldOf(o: Optional): Field {
    match o case Absent => Undefined case ExplicitNull => NullField case Given(text) => TextField(text)
  }

  function EnvelopeOf(dto: Dto): Envelope {
    Envelope(dto.agentFromId, dto.agentToId, dto.sessionId, dto.requestPayload, dto.maxBudget,
             FieldOf(dto.policyDigest), FieldOf(dto.nonce))
  }

  /** A hash without collisions: SHA-256 of the request, keccak256 of the result. */
  datatype Hash = HashOf(text: Text)

  function RequestHash(dto: Dto): Hash { HashOf(CanonicalizeSignedRequest(EnvelopeOf(dto))) }

  /** `if (dto.nonce)` */
  predicate Guarded(dto: Dto) { dto.nonce.Given? && dto.nonce.text != [] }

  function ResultPayload(dto: Dto, timestamp: Text): Json {
    Obj([Member(Units("agentFrom"), Str(dto.agentToId)),
         Member(Units("agentTo"), Str(dto.agentFromId)),
         Member(Units("sessionId"), Str(dto.sessionId)),
         Member(Units("result"), Str(Units("Processed request from ") + dto.agentFromId)),
         Member(Units("timestamp"), Str(timestamp))])
  }

  datatype UsageMetrics = UsageMetrics(tokensUsed: nat, cpuMs: int, bytesIn: nat, bytesOut: nat, toolCallsCount: nat)

  /** Math.ceil(length / 4) */
  function Tokens(length: nat): nat { (length + 3) / 4 }

  function MetricsOf(dto: Dto, timestamp: Text, cpuMs: int): UsageMetrics {
    var bytesIn := |Print(dto.requestPayload)|;
    UsageMetrics(Tokens(bytesIn), cpuMs, bytesIn, |Print(ResultPayload(dto, timestamp))|, 1)
  }

  /** 0.0001 per token with eight decimals, in units of 1e-8. */
  const PRICE_PER_TOKEN := 10000

  function Price(metrics: UsageMetrics): nat { metrics.tokensUsed * PRICE_PER_TOKEN }

  function AccessContext(dto: Dto): Policy.Context {
    Policy.Context(dto.agentFromId, Units("invoke"), dto.sessionId)
  }

  // ---------- The tables and the requests in progress ----------

  /** A row of usage_records; `request` is the call that saved it and is not stored. */
  datatype UsageRecord = UsageRecord(request: nat, sessionId: Text, agentId: Text, metrics: UsageMetrics)

  /**
   * A row of receipts; `request` is the call that saved it and `usageBefore` how many usage rows there were,
   * neither is stored.
   */
  datatype Receipt = Receipt(request: nat, usageBefore: nat, sessionId: Text, requestHash: Hash, resultHash: Hash,
                             metrics: UsageMetrics, priceComputed: nat)

  /** A call as it came in: whether the nonce check let it pass, and when. */
  datatype Arrival = Arrival(dto: Dto, accepted: bool, at: int)

  datatype Stage = AtNonce | AtPolicy | AtUsage | AtSigning | AtReceipt

  /** The await at which a call stands, or how it ended. */
  datatype Phase =
    | CheckingPolicy
    | RecordingUsage(metrics: UsageMetrics, resultHash: Hash)
    | Signing(metrics: UsageMetrics, resultHash: Hash)
    | SavingReceipt(metrics: UsageMetrics, resultHash: Hash)
    | Completed
    | Failed(stage: Stage)

  datatype State = State(
    entries: NonceStore.Entries,
    usage: seq<UsageRecord>,
    receipts: seq<Receipt>,
    arrivals: seq<Arrival>,
    phases: seq<Phase>,
    clock: int)

  function Initial(clock: int): State { State(map[], [], [], [], [], clock) }

  /** A save that fails may have been committed all the same. */
  datatype Save = Saved | LostReply | NotSaved

  datatype Event =
    | Arrive(dto: Dto, evictAt: int, storeAt: int)
    | TimerTick(at: int)
    | PolicyAnswers(call: nat, policies: seq<Policy.Policy>, timestamp: Text, cpuMs: int)
    | PolicyFails(call: nat)
    | UsageSave(call: nat, save: Save)
    | Sign(call: nat, ok: bool)
    | ReceiptSave(call: nat, save: Save)

  function Check(windowMs: int, entries: NonceStore.Entries, e: Event): (NonceStore.Entries, bool)
    requires e.Arrive?
  {
    if Guarded(e.dto) then
      var (next, out) := NonceStore.Step(windowMs, entries,
                                         NonceStore.AssertFresh(e.dto.agentFromId, e.dto.nonce.text,
                                                                e.evictAt, e.storeAt));
      (next, out.Accepted?)
    else (entries, true)
  }

  function UsageOf(dto: Dto, call: nat, metrics: UsageMetrics): UsageRecord {
    UsageRecord(call, dto.sessionId, dto.agentToId, metrics)
  }

  function ReceiptOf(dto: Dto, call: nat, usageBefore: nat, metrics: UsageMetrics, resultHash: Hash): Receipt {
    Receipt(call, usageBefore, dto.sessionId, RequestHash(dto), resultHash, metrics, Price(metrics))
  }

  predicate MayCall(dto: Dto, policies: seq<Policy.Policy>) {
    Policy.AllAllow(Policy.ActivePolicies(policies, dto.agentToId), AccessContext(dto))
  }

  function AfterPolicy(dto: Dto, policies: seq<Policy.Policy>, timestamp: Text, cpuMs: int): Phase {
    if MayCall(dto, policies) then
      RecordingUsage(MetricsOf(dto, timestamp, cpuMs), HashOf(Print(ResultPayload(dto, timestamp))))
    else Failed(AtPolicy)
  }

  /** None when the event cannot happen: wrong await, a clock that goes back, or a body that validation stops. */
  function Step(windowMs: int, s: State, e: Event): Option<State> {
    match e
    case Arrive(dto, evictAt, storeAt) =>
      if !Validated(dto) || !(s.clock <= evictAt <= storeAt) then None
      else
        var (entries, accepted) := Check(windowMs, s.entries, e);
        Some(s.(entries := entries, clock := storeAt, arrivals := s.arrivals + [Arrival(dto, accepted, storeAt)],
                phases := s.phases + [if accepted then CheckingPolicy else Failed(AtNonce)]))
    case TimerTick(at) =>
      if at < s.clock then None
      else Some(s.(entries := NonceStore.Step(windowMs, s.entries, NonceStore.TimerTick(at)).0, clock := at))
    case _ =>
      if e.call >= |s.phases| || e.call >= |s.arrivals| then None
      else Resume(s, e.call, s.arrivals[e.call].dto, s.phases[e.call], e)
  }

  /** One await of call `i` comes back. */
  function Resume(s: State, i: nat, dto: Dto, phase: Phase, e: Event): Option<State>
    requires i < |s.phases|
  {
    match (phase, e)
    case (CheckingPolicy, PolicyAnswers(_, policies, timestamp, cpuMs)) =>
      Some(s.(phases := s.phases[i := AfterPolicy(dto, policies, timestamp, cpuMs)]))
    case (CheckingPolicy, PolicyFails(_)) => Some(s.(phases := s.phases[i := Failed(AtPolicy)]))
    case (RecordingUsage(metrics, resultHash), UsageSave(_, save)) =>
      Some(s.(usage := if save.NotSaved? then s.usage else s.usage + [UsageOf(dto, i, metrics)],
              phases := s.phases[i := if save.Saved? then Signing(metrics, resultHash) else Failed(AtUsage)]))
    case (Signing(metrics, resultHash), Sign(_, ok)) =>
      Some(s.(phases := s.phases[i := if ok then SavingReceipt(metrics, resultHash) else Failed(AtSigning)]))
    case (SavingReceipt(metrics, resultHash), ReceiptSave(_, save)) =>
      Some(s.(receipts := if save.NotSaved? then s.receipts
                          else s.receipts + [ReceiptOf(dto, i, |s.usage|, metrics, resultHash)],
              phases := s.phases[i := if save.Saved? then Completed else Failed(AtReceipt)]))
    case _ => None
  }

  // ---------- The service ----------

  class ProtocolService {
    const windowMs: int
    var entries: NonceStore.Entries
    var usage: seq<UsageRecord>
    var receipts: seq<Receipt>
    /** The calls in progress: their bodies and the awaits at which they stand. */
    var arrivals: seq<Arrival>
    var phases: seq<Phase>
    var clock: int

    ghost function Now(): State
      reads this
    {
      State(entries, usage, receipts, arrivals, phases, clock)
    }

    ghost predicate Stands(call: nat, phase: Phase)
      reads this
    {
      call < |phases| == |arrivals| && phases[call] == phase
    }

    constructor (windowMs: int, clock: int)
      ensures this.windowMs == windowMs && Now() == Initial(clock)
    {
      this.windowMs, this.clock := windowMs, clock;
      entries, usage, receipts, arrivals, phases := map[], [], [], [], [];
    }

    /** Up to the first await. */
    method Arrive(dto: Dto, evictAt: int, storeAt: int) returns (call: nat, accepted: bool)
      requires Validated(dto) && clock <= evictAt <= storeAt && |phases| == |arrivals|
      modifies this
      ensures Some(Now()) == Step(windowMs, old(Now()), Event.Arrive(dto, evictAt, storeAt))
      ensures call == |old(phases)|
      ensures Stands(call, if accepted then CheckingPolicy else Failed(AtNonce)) && arrivals[call].dto == dto
      ensures accepted == Check(windowMs, old(entries), Event.Arrive(dto, evictAt, storeAt)).1
      ensures usage == old(usage) && receipts == old(receipts)
    {
      call, accepted := |phases|, true;
      if dto.nonce.Given? && dto.nonce.text != [] {
        var checked := NonceStore.Step(windowMs, entries,
                                       NonceStore.AssertFresh(dto.agentFromId, dto.nonce.text, evictAt, storeAt));
        entries := checked.0;
        accepted := checked.1.Accepted?;
      }
      clock := storeAt;
      arrivals := arrivals + [Arrival(dto, accepted, storeAt)];
      phases := phases + [if accepted then CheckingPolicy else Failed(AtNonce)];
    }

    /**
     * `assertAllowed` has read the policies: the call is denied, or goes on with the metrics of what it received
     * and will return.
     */
    method PolicyAnswered(call: nat, policies: seq<Policy.Policy>, timestamp: Text, cpuMs: int)
      requires Stands(call, CheckingPolicy)
      modifies `phases
      ensures Some(Now()) == Step(windowMs, old(Now()), PolicyAnswers(call, policies, timestamp, cpuMs))
      ensures |phases| == |arrivals| && forall c :: 0 <= c < |phases| && c != call ==> phases[c] == old(phases)[c]
      ensures var dto, p := arrivals[call].dto, phases[call];
              && (p == Failed(AtPolicy) <==> !MayCall(dto, policies))
              && (p.RecordingUsage? <==> MayCall(dto, policies))
              && (p.RecordingUsage? ==>
                    && p.metrics.bytesIn == |Print(dto.requestPayload)|
                    && 4 * p.metrics.tokensUsed - 4 < p.metrics.bytesIn <= 4 * p.metrics.tokensUsed
                    && p.metrics.bytesOut == |Print(ResultPayload(dto, timestamp))|
                    && p.metrics.cpuMs == cpuMs && p.metrics.toolCallsCount == 1
                    && p.resultHash == HashOf(Print(ResultPayload(dto, timestamp))))
    {
      var dto := arrivals[call].dto;
      phases := phases[call := AfterPolicy(dto, policies, timestamp, cpuMs)];
    }

    /** The policies could not be read. */
    method PolicyUnreadable(call: nat)
      requires Stands(call, CheckingPolicy)
      modifies `phases
      ensures Some(Now()) == Step(windowMs, old(Now()), PolicyFails(call))
      ensures Stands(call, Failed(AtPolicy))
    {
      phases := phases[call := Failed(AtPolicy)];
    }

    /** `recordUsage` */
    method RecordUsage(call: nat, save: Save, metrics: UsageMetrics, resultHash: Hash)
      requires Stands(call, RecordingUsage(metrics, resultHash))
      modifies `usage, `phases
      ensures Some(Now()) == Step(windowMs, old(Now()), UsageSave(call, save))
      ensures Stands(call, if save.Saved? then Signing(metrics, resultHash) else Failed(AtUsage))
      ensures usage == old(usage) + if save.NotSaved? then [] else [UsageOf(arrivals[call].dto, call, metrics)]
    {
      if !save.NotSaved? {
        usage := usage + [UsageOf(arrivals[call].dto, call, metrics)];
      }
      phases := phases[call := if save.Saved? then Signing(metrics, resultHash) else Failed(AtUsage)];
    }

    /** `createSignedReceipt`, up to the signature: a signed call carries its metrics on, and nothing else moves. */
    method SignReceipt(call: nat, ok: bool)
      requires call < |phases| == |arrivals| && phases[call].Signing?
      modifies `phases
      ensures Some(Now()) == Step(windowMs, old(Now()), Sign(call, ok))
      ensures |phases| == |arrivals| && forall c :: 0 <= c < |phases| && c != call ==> phases[c] == old(phases)[c]
      ensures phases[call].SavingReceipt? <==> ok
      ensures phases[call] == Failed(AtSigning) <==> !ok
      ensures ok ==> phases[call].metrics == old(phases)[call].metrics
                     && phases[call].resultHash == old(phases)[call].resultHash
      ensures usage == old(usage) && receipts == old(receipts)
    {
      var metrics, resultHash := phases[call].metrics, phases[call].resultHash;
      phases := phases[call := if ok then SavingReceipt(metrics, resultHash) else Failed(AtSigning)];
    }

    /** `createSignedReceipt`, the save. */
    method SaveReceipt(call: nat, save: Save, metrics: UsageMetrics, resultHash: Hash)
      requires Stands(call, SavingReceipt(metrics, resultHash))
      modifies `receipts, `phases
      ensures Some(Now()) == Step(windowMs, old(Now()), ReceiptSave(call, save))
      ensures Stands(call, if save.Saved? then Completed else Failed(AtReceipt))
      ensures receipts == old(receipts)
                + if save.NotSaved? then [] else [ReceiptOf(arrivals[call].dto, call, |usage|, metrics, resultHash)]
    {
      if !save.NotSaved? {
        receipts := receipts + [ReceiptOf(arrivals[call].dto, call, |usage|, metrics, resultHash)];
      }
      phases := phases[call := if save.Saved? then Completed else Failed(AtReceipt)];
    }

    /** One call from start to end with nothing between its awaits. `policies` is None when they cannot be read. */
    method HandleRequest(dto: Dto, evictAt: int, storeAt: int, policies: Option<seq<Policy.Policy>>, timestamp: Text,
                         cpuMs: int, usageSave: Save, signs: bool, receiptSave: Save)
      returns (r: Result<Receipt, Stage>)
      requires Validated(dto) && clock <= evictAt <= storeAt && |phases| == |arrivals|
      modifies this
      ensures var call, metrics := |old(phases)|, MetricsOf(dto, timestamp, cpuMs);
              var resultHash := HashOf(Print(ResultPayload(dto, timestamp)));
              && usage == old(usage) + (if SavesUsage(r, usageSave) then [UsageOf(dto, call, metrics)] else [])
              && receipts == old(receipts)
                   + (if SavesReceipt(r, receiptSave) then [ReceiptOf(dto, call, |usage|, metrics, resultHash)] else [])
              && (r.Ok? ==> r.value == receipts[|receipts| - 1])
      ensures var accepted := Check(windowMs, old(entries), Event.Arrive(dto, evictAt, storeAt)).1;
              var allowed := policies.Some? && MayCall(dto, policies.value);
              && (r == Err(AtNonce) <==> !accepted)
              && (r == Err(AtPolicy) <==> accepted && !allowed)
              && (r == Err(AtUsage) <==> accepted && allowed && !usageSave.Saved?)
              && (r == Err(AtSigning) <==> accepted && allowed && usageSave.Saved? && !signs)
              && (r == Err(AtReceipt) <==> accepted && allowed && usageSave.Saved? && signs && !receiptSave.Saved?)
    {
      hide MetricsOf, ResultPayload, ReceiptOf, UsageOf, Step, Validated, MayCall, Check, Print, Tokens;
      var call, accepted := Arrive(dto, evictAt, storeAt);
      if !accepted {
        return Err(AtNonce);
      }
      if policies.None? {
        PolicyUnreadable(call);
        return Err(AtPolicy);
      }
      PolicyAnswered(call, policies.value, timestamp, cpuMs);
      if phases[call].Failed? {
        return Err(AtPolicy);
      }
      var metrics, resultHash := phases[call].metrics, phases[call].resultHash;
      SameMetrics(dto, timestamp, cpuMs, metrics);
      RecordUsage(call, usageSave, metrics, resultHash);
      if !usageSave.Saved? {
        return Err(AtUsage);
      }
      SignReceipt(call, signs);
      if !signs {
        return Err(AtSigning);
      }
      SaveReceipt(call, receiptSave, metrics, resultHash);
      if !receiptSave.Saved? {
        return Err(AtReceipt);
      }
      return Ok(ReceiptOf(dto, call, |usage|, metrics, resultHash));
    }
  }

  /** The call got as far as saving its usage. */
  predicate SavesUsage(r: Result<Receipt, Stage>, save: Save) {
    r.Ok? || r.error.AtSigning? || r.error.AtReceipt? || (r.error.AtUsage? && save.LostReply?)
  }

  predicate SavesReceipt(r: Result<Receipt, Stage>, save: Save) { r.Ok? || (r.error.AtReceipt? && save.LostReply?) }

  /** The bounds on the tokens leave only the metrics of the request. */
  lemma SameMetrics(dto: Dto, timestamp: Text, cpuMs: int, m: UsageMetrics)
    requires m.bytesIn == |Print(dto.requestPayload)| && m.bytesOut == |Print(ResultPayload(dto, timestamp))|
    requires 4 * m.tokensUsed - 4 < m.bytesIn <= 4 * m.tokensUsed && m.cpuMs == cpuMs && m.toolCallsCount == 1
    ensures m == MetricsOf(dto, timestamp, cpuMs)
  {
  }
}
