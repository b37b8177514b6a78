/** From request to bill and from request to rollup: the two ways that metered tokens go. */
module Billing {
  import opened Utf16
  import Protocol
  import ProtocolRuns
  import Rollup
  import RollupRuns

  /** The raw table of the rollup job is the one that the request pipeline wrote, with its times. */
  predicate SameTable(usage: seq<Protocol.UsageRecord>, records: seq<Rollup.Record>) {
    |usage| == |records| && forall k :: 0 <= k < |usage| ==> SameRow(usage[k], records[k])
  }

  predicate SameRow(u: Protocol.UsageRecord, r: Rollup.Record) {
    r.agentId == u.agentId && r.tokensUsed == u.metrics.tokensUsed && r.cpuMs == u.metrics.cpuMs
    && r.bytesIn == u.metrics.bytesIn && r.bytesOut == u.metrics.bytesOut
  }

  lemma {:induction false} MeteredAppend(usage: seq<Protocol.UsageRecord>, u: Protocol.UsageRecord, sessions: set<Text>)
    ensures ProtocolRuns.Metered(usage + [u], sessions)
         == ProtocolRuns.Metered(usage, sessions) + if u.sessionId in sessions then u.metrics.tokensUsed else 0
  {
    if usage == [] {
      assert usage + [u] == [u] && [u][1..] == [];
    } else {
      MeteredAppend(usage[1..], u, sessions);
      assert (usage + [u])[1..] == usage[1..] + [u];
    }
  }

  predicate Spans(usage: seq<Protocol.UsageRecord>, sessions: set<Text>, agents: set<Text>) {
    forall k :: 0 <= k < |usage| ==> usage[k].sessionId in sessions && usage[k].agentId in agents
  }

  lemma {:induction false} MeteredIsRaw(usage: seq<Protocol.UsageRecord>, records: seq<Rollup.Record>,
                                        sessions: set<Text>, agents: set<Text>)
    requires SameTable(usage, records) && Spans(usage, sessions, agents)
    ensures ProtocolRuns.Metered(usage, sessions) == Rollup.RawTotal(records, agents).tokensUsed
    decreases |usage|
  {
    if usage != [] {
      var n := |usage| - 1;
      assert SameRow(usage[n], records[n]);
      assert usage == usage[..n] + [usage[n]];
      MeteredIsRaw(usage[..n], records[..n], sessions, agents);
      MeteredAppend(usage[..n], usage[n], sessions);
    }
  }

  /**
   * Requests to rollups to bills, over any run of the pipeline and any overlapping
   * runs of the rollup job on the table it wrote: once every record is covered, what
   * is billed is at most the price of the rolled tokens, and exactly that if and only
   * if every usage row has its receipt.
   */
  lemma BilledAgainstRollups(windowMs: int, clock: int, requests: seq<Protocol.Event>, rollups: seq<RollupRuns.Event>,
                             sessions: set<Text>, agents: set<Text>)
    requires ProtocolRuns.Run(windowMs, Protocol.Initial(clock), requests).Some?
    requires RollupRuns.RunEvents(RollupRuns.INITIAL, rollups).Some?
    requires var s := ProtocolRuns.Run(windowMs, Protocol.Initial(clock), requests).value;
             var t := RollupRuns.RunEvents(RollupRuns.INITIAL, rollups).value.tables;
             SameTable(s.usage, t.usage) && Spans(s.usage, sessions, agents) && Rollup.AllCovered(t, agents)
    ensures var s := ProtocolRuns.Run(windowMs, Protocol.Initial(clock), requests).value;
            var t := RollupRuns.RunEvents(RollupRuns.INITIAL, rollups).value.tables;
            var billed := ProtocolRuns.Billed(s.receipts, sessions);
            var rolled := Rollup.RolledTotal(t.rows, agents).tokensUsed;
            && billed <= rolled * Protocol.PRICE_PER_TOKEN
            && (billed == rolled * Protocol.PRICE_PER_TOKEN
                <==> ProtocolRuns.AllReceipted(s.usage, s.receipts, sessions))
  {
    var s := ProtocolRuns.Run(windowMs, Protocol.Initial(clock), requests).value;
    var t := RollupRuns.RunEvents(RollupRuns.INITIAL, rollups).value.tables;
    ProtocolRuns.BilledNeverExceedsMetered(windowMs, clock, requests, sessions);
    RollupRuns.OverlappingRunsConserve(rollups, agents);
    MeteredIsRaw(s.usage, t.usage, sessions, agents);
  }
}
