/** src/modules/metering/metering-rollup.job.ts: raw usage records into hourly rollups, by upserts. */
module Rollup {
  import opened Wrappers
  import opened Utf16

  const HOUR_MS := 3600000

  /** Milliseconds in UTC; `setUTCMinutes(0, 0, 0)` keeps day and hour. */
  function TruncateToHour(t: int): int { t - t % HOUR_MS }

  /** The hour buckets tile time: each instant lies in exactly one, the one it truncates to. */
  lemma HoursTile(t: int, bucket: int)
    requires bucket % HOUR_MS == 0
    ensures bucket <= t < bucket + HOUR_MS <==> TruncateToHour(t) == bucket
    ensures TruncateToHour(t) % HOUR_MS == 0 && TruncateToHour(bucket) == bucket
  {
    var hours, rest, start := t / HOUR_MS, t % HOUR_MS, bucket / HOUR_MS;
    assert t == HOUR_MS * hours + rest && bucket == HOUR_MS * start;
  }

  // ---------- The tables ----------

  datatype Metrics = Metrics(requestCount: int, tokensUsed: int, bytesIn: int, bytesOut: int, cpuMs: int)

  const ZERO := Metrics(0, 0, 0, 0, 0)

  function Plus(a: Metrics, b: Metrics): Metrics {
    Metrics(a.requestCount + b.requestCount, a.tokensUsed + b.tokensUsed, a.bytesIn + b.bytesIn,
            a.bytesOut + b.bytesOut, a.cpuMs + b.cpuMs)
  }

  /** One row of usage_records. */
  datatype Record = Record(agentId: Text, createdAt: int, tokensUsed: int, bytesIn: int, bytesOut: int, cpuMs: int)

  /** What the record adds to its bucket. */
  function Of(r: Record): Metrics { Metrics(1, r.tokensUsed, r.bytesIn, r.bytesOut, r.cpuMs) }

  datatype Key = Key(agentId: Text, hourBucket: int)

  function KeyOf(r: Record): Key { Key(r.agentId, TruncateToHour(r.createdAt)) }

  /** One row of usage_rollups. */
  datatype Row = Row(key: Key, metrics: Metrics)

  // ---------- The query and the upsert ----------

  predicate InHour(r: Record, hour: int) { hour <= r.createdAt < hour + HOUR_MS }

  /** COUNT(*) and the SUMs of one group. */
  function SumGroup(usage: seq<Record>, agentId: Text, hour: int): Metrics {
    if usage == [] then ZERO
    else
      var last := usage[|usage| - 1];
      var before := SumGroup(usage[..|usage| - 1], agentId, hour);
      if last.agentId == agentId && InHour(last, hour) then Plus(before, Of(last)) else before
  }

  /** GROUP BY gives one group for each agent with a record in the hour, in an order of its own. */
  predicate GroupOrder(usage: seq<Record>, hour: int, order: seq<Text>) {
    && (forall i, j :: 0 <= i < j < |order| ==> order[i] != order[j])
    && (forall i :: 0 <= i < |order| ==>
         exists k :: 0 <= k < |usage| && usage[k].agentId == order[i] && InHour(usage[k], hour))
    && (forall k :: 0 <= k < |usage| && InHour(usage[k], hour) ==> usage[k].agentId in order)
  }

  function Aggregates(usage: seq<Record>, hour: int, order: seq<Text>): (rows: seq<Row>)
    ensures |rows| == |order|
    ensures forall i :: 0 <= i < |rows| ==> rows[i] == Row(Key(order[i], hour), SumGroup(usage, order[i], hour))
  {
    if order == [] then []
    else [Row(Key(order[0], hour), SumGroup(usage, order[0], hour))] + Aggregates(usage, hour, order[1..])
  }

  function IndexOf(rows: seq<Row>, key: Key): (i: nat)
    ensures i <= |rows| && (i < |rows| ==> rows[i].key == key)
    ensures forall j :: 0 <= j < i ==> rows[j].key != key
  {
    if rows == [] || rows[0].key == key then 0 else 1 + IndexOf(rows[1..], key)
  }

  /** INSERT ... ON CONFLICT (agentId, hourBucket) DO UPDATE of all metrics. */
  function Upsert(rows: seq<Row>, row: Row): seq<Row> {
    var i := IndexOf(rows, row.key);
    if i < |rows| then rows[i := row] else rows + [row]
  }

  /**
   * Both tables, and for each key that was ever upserted how many records the
   * usage table held when the run that last wrote the key read it.
   */
  datatype Tables = Tables(usage: seq<Record>, rows: seq<Row>, written: map<Key, nat>)

  const EMPTY := Tables([], [], map[])

  function WriteRow(t: Tables, readAt: nat, row: Row): Tables {
    t.(rows := Upsert(t.rows, row), written := t.written[row.key := readAt])
  }

  function WriteAll(t: Tables, readAt: nat, rows: seq<Row>): Tables
    decreases |rows|
  {
    if rows == [] then t else WriteAll(WriteRow(t, readAt, rows[0]), readAt, rows[1..])
  }

  /** A whole run, cut off before upsert number `upTo`. */
  function RunUpTo(t: Tables, referenceDate: int, order: seq<Text>, upTo: nat): Tables {
    var aggregates := Aggregates(t.usage, TruncateToHour(referenceDate), order);
    WriteAll(t, |t.usage|, if upTo < |aggregates| then aggregates[..upTo] else aggregates)
  }

  // ---------- The job ----------

  /** What the database does to a run. A refused upsert may have been committed all the same. */
  datatype Fault = NoFault | QueryFails | UpsertFails(index: nat, committed: bool)

  predicate Fails(fault: Fault, order: seq<Text>) {
    fault.QueryFails? || (fault.UpsertFails? && fault.index < |order|)
  }

  /** How many rows are written before the run ends. */
  function Reached(fault: Fault, order: seq<Text>): (n: nat)
    ensures n <= |order|
    ensures !Fails(fault, order) ==> n == |order|
  {
    if fault.QueryFails? then 0
    else if Fails(fault, order) then if fault.committed then fault.index + 1 else fault.index
    else |order|
  }

  class MeteringRollupJob {
    var usage: seq<Record>
    var rows: seq<Row>
    ghost var written: map<Key, nat>
    var successes: nat
    var failures: nat

    ghost function Now(): Tables
      reads this
    {
      Tables(usage, rows, written)
    }

    constructor ()
      ensures Now() == EMPTY && successes == failures == 0
    {
      usage, rows, written, successes, failures := [], [], map[], 0, 0;
    }

    /** The query and the loop over its aggregates. `order` is the order of the groups that the query returns. */
    method Rollup(referenceDate: int, order: seq<Text>, fault: Fault) returns (r: Result<nat, ()>)
      requires fault.QueryFails? || GroupOrder(usage, TruncateToHour(referenceDate), order)
      modifies this
      ensures Now() == RunUpTo(old(Now()), referenceDate, order, Reached(fault, order))
      ensures r == if Fails(fault, order) then Err(()) else Ok(|order|)
      ensures successes == old(successes) && failures == old(failures)
    {
      hide Upsert, SumGroup, GroupOrder, TruncateToHour;
      var hourBucket := TruncateToHour(referenceDate);
      if fault.QueryFails? {
        return Err(());
      }
      var aggregates := Aggregates(usage, hourBucket, order);
      if |aggregates| == 0 {
        return Ok(0);
      }
      ghost var upTo := Reached(fault, order);
      ghost var end := RunUpTo(Now(), referenceDate, order, upTo);
      assert aggregates[..|order|] == aggregates;
      for i := 0 to |aggregates|
        invariant i <= upTo && usage == old(usage) && successes == old(successes) && failures == old(failures)
        invariant fault.UpsertFails? ==> i <= fault.index
        invariant WriteAll(Now(), |usage|, aggregates[i..upTo]) == end
      {
        if fault == UpsertFails(i, false) {
          return Err(());
        }
        assert aggregates[i..upTo][0] == aggregates[i] && aggregates[i..upTo][1..] == aggregates[i + 1..upTo];
        rows := Upsert(rows, aggregates[i]);
        written := written[aggregates[i].key := |usage|];
        if fault == UpsertFails(i, true) {
          return Err(());
        }
      }
      return Ok(|aggregates|);
    }

    /** Counts the run before passing its outcome on. */
    method RunHourlyRollup(referenceDate: int, order: seq<Text>, fault: Fault) returns (r: Result<nat, ()>)
      requires fault.QueryFails? || GroupOrder(usage, TruncateToHour(referenceDate), order)
      modifies this
      ensures Now() == RunUpTo(old(Now()), referenceDate, order, Reached(fault, order))
      ensures r == if Fails(fault, order) then Err(()) else Ok(|order|)
      ensures successes == old(successes) + (if r.Ok? then 1 else 0)
      ensures failures == old(failures) + (if r.Err? then 1 else 0)
    {
      r := Rollup(referenceDate, order, fault);
      if r.Ok? {
        successes := successes + 1;
      } else {
        failures := failures + 1;
      }
    }
  }

  // ---------- What the rows say ----------

  function SumKey(usage: seq<Record>, key: Key): Metrics {
    if usage == [] then ZERO
    else
      var last := usage[|usage| - 1];
      var before := SumKey(usage[..|usage| - 1], key);
      if KeyOf(last) == key then Plus(before, Of(last)) else before
  }

  /** Grouping by window and grouping by truncated time are the same. */
  lemma {:induction false} GroupIsKey(usage: seq<Record>, agentId: Text, hour: int)
    requires hour % HOUR_MS == 0
    ensures SumGroup(usage, agentId, hour) == SumKey(usage, Key(agentId, hour))
  {
    if usage != [] {
      GroupIsKey(usage[..|usage| - 1], agentId, hour);
      HoursTile(usage[|usage| - 1].createdAt, hour);
    }
  }

  predicate UniqueRows(rows: seq<Row>) {
    forall i, j :: 0 <= i < j < |rows| ==> rows[i].key != rows[j].key
  }

  predicate Sound(usage: seq<Record>, readAt: nat, row: Row) {
    readAt <= |usage| && row.metrics == SumKey(usage[..readAt], row.key)
  }

  /** One row for each written key, holding the sums of the records its writer had read. */
  predicate Inv(t: Tables) {
    && UniqueRows(t.rows)
    && (forall i :: 0 <= i < |t.rows| ==>
         t.rows[i].key in t.written && Sound(t.usage, t.written[t.rows[i].key], t.rows[i]))
    && (forall key :: key in t.written ==> IndexOf(t.rows, key) < |t.rows|)
  }

  lemma InsertKeeps(t: Tables, r: Record)
    requires Inv(t)
    ensures Inv(t.(usage := t.usage + [r]))
  {
    forall i | 0 <= i < |t.rows| ensures Sound(t.usage + [r], t.written[t.rows[i].key], t.rows[i]) {
      var n := t.written[t.rows[i].key];
      assert (t.usage + [r])[..n] == t.usage[..n];
    }
  }

  /** An upsert changes the one row of its key and no other. */
  lemma UpsertAt(rows: seq<Row>, row: Row)
    requires UniqueRows(rows)
    ensures var next, at := Upsert(rows, row), IndexOf(rows, row.key);
            && UniqueRows(next) && |rows| <= |next| && at < |next| && next[at] == row
            && (forall i :: 0 <= i < |next| && i != at ==> i < |rows| && next[i] == rows[i] && next[i].key != row.key)
            && (forall i :: 0 <= i < |rows| ==> next[i].key == rows[i].key)
  {
  }

  lemma RowsStay(rows: seq<Row>, row: Row, key: Key)
    requires UniqueRows(rows) && (key == row.key || IndexOf(rows, key) < |rows|)
    ensures IndexOf(Upsert(rows, row), key) < |Upsert(rows, row)|
  {
    hide UniqueRows, Upsert;
    UpsertAt(rows, row);
    var i := IndexOf(rows, key);
    assert Upsert(rows, row)[i].key == key;
  }

  lemma WriteKeeps(t: Tables, readAt: nat, row: Row)
    requires Inv(t) && Sound(t.usage, readAt, row)
    ensures Inv(WriteRow(t, readAt, row))
  {
    hide Sound, Upsert, UniqueRows, IndexOf;
    UpsertAt(t.rows, row);
    var next := WriteRow(t, readAt, row);
    forall key | key in next.written ensures IndexOf(next.rows, key) < |next.rows| {
      RowsStay(t.rows, row, key);
    }
  }

  // ---------- Conservation ----------

  /** The raw records of some agents. */
  function RawTotal(usage: seq<Record>, agents: set<Text>): Metrics {
    if usage == [] then ZERO
    else
      var last := usage[|usage| - 1];
      var before := RawTotal(usage[..|usage| - 1], agents);
      if last.agentId in agents then Plus(before, Of(last)) else before
  }

  /** The rollup rows of some agents. */
  function RolledTotal(rows: seq<Row>, agents: set<Text>): Metrics {
    if rows == [] then ZERO
    else if rows[0].key.agentId in agents then Plus(rows[0].metrics, RolledTotal(rows[1..], agents))
    else RolledTotal(rows[1..], agents)
  }

  predicate UpToDate(usage: seq<Record>, rows: seq<Row>) {
    forall i :: 0 <= i < |rows| ==> rows[i].metrics == SumKey(usage, rows[i].key)
  }

  function Refreshed(usage: seq<Record>, rows: seq<Row>): (out: seq<Row>)
    ensures |out| == |rows| && UpToDate(usage, out)
    ensures forall i :: 0 <= i < |rows| ==> out[i].key == rows[i].key
  {
    if rows == [] then [] else [Row(rows[0].key, SumKey(usage, rows[0].key))] + Refreshed(usage, rows[1..])
  }

  lemma {:induction false} EmptyTotal(rows: seq<Row>, agents: set<Text>)
    requires UpToDate([], rows)
    ensures RolledTotal(rows, agents) == ZERO
  {
    if rows != [] {
      assert rows[0].metrics == SumKey([], rows[0].key);
      EmptyTotal(rows[1..], agents);
    }
  }

  lemma TailFacts(usage: seq<Record>, rows: seq<Row>)
    requires rows != [] && UniqueRows(rows) && UpToDate(usage, rows)
    ensures UniqueRows(rows[1..]) && UpToDate(usage, rows[1..]) && rows[0].metrics == SumKey(usage, rows[0].key)
    ensures IndexOf(rows[1..], rows[0].key) == |rows[1..]|
  {
    forall i | 0 <= i < |rows[1..]| ensures rows[1..][i].metrics == SumKey(usage, rows[1..][i].key) {
      assert rows[1..][i] == rows[i + 1];
    }
  }

  /** One more record changes the one row of its key, if there is one. */
  lemma {:induction false} RecordAdds(usage: seq<Record>, r: Record, rows: seq<Row>, agents: set<Text>)
    requires UniqueRows(rows) && UpToDate(usage + [r], rows)
    ensures RolledTotal(rows, agents)
         == (if r.agentId in agents && IndexOf(rows, KeyOf(r)) < |rows|
             then Plus(RolledTotal(Refreshed(usage, rows), agents), Of(r))
             else RolledTotal(Refreshed(usage, rows), agents))
  {
    if rows != [] {
      hide KeyOf, Of, Plus, SumKey, RolledTotal, Refreshed, IndexOf, UniqueRows, UpToDate;
      KeyOfAgent(r);
      var head := SumKey(usage, rows[0].key);
      PlusOrder(head, RolledTotal(Refreshed(usage, rows[1..]), agents), Of(r));
      TailFacts(usage + [r], rows);
      SumKeyAppend(usage, r, rows[0].key);
      RecordAdds(usage, r, rows[1..], agents);
      RolledFirst(rows, agents);
      RefreshedFirst(usage, rows);
      RolledFirst(Refreshed(usage, rows), agents);
      IndexOfFirst(rows, KeyOf(r));
    }
  }

  lemma PlusOrder(a: Metrics, b: Metrics, c: Metrics)
    ensures Plus(Plus(a, c), b) == Plus(Plus(a, b), c) == Plus(a, Plus(b, c))
  {
  }

  lemma RolledFirst(rows: seq<Row>, agents: set<Text>)
    requires rows != []
    ensures var rest := RolledTotal(rows[1..], agents);
            RolledTotal(rows, agents) == if rows[0].key.agentId in agents then Plus(rows[0].metrics, rest) else rest
  {
  }

  lemma RefreshedFirst(usage: seq<Record>, rows: seq<Row>)
    requires rows != []
    ensures var out := Refreshed(usage, rows);
            out[0] == Row(rows[0].key, SumKey(usage, rows[0].key)) && out[1..] == Refreshed(usage, rows[1..])
  {
  }

  lemma IndexOfFirst(rows: seq<Row>, key: Key)
    requires rows != []
    ensures IndexOf(rows, key) < |rows| <==> rows[0].key == key || IndexOf(rows[1..], key) < |rows[1..]|
  {
  }

  lemma KeyOfAgent(r: Record)
    ensures KeyOf(r).agentId == r.agentId
  {
  }

  /** Unique rows that cover every record, each up to date, add up to the raw records. */
  lemma {:induction false} RowsAddUp(usage: seq<Record>, rows: seq<Row>, agents: set<Text>)
    requires UniqueRows(rows) && UpToDate(usage, rows)
    requires forall k :: 0 <= k < |usage| ==> IndexOf(rows, KeyOf(usage[k])) < |rows|
    ensures RolledTotal(rows, agents) == RawTotal(usage, agents)
    decreases |usage|
  {
    if usage == [] {
      EmptyTotal(rows, agents);
    } else {
      var shorter, last := usage[..|usage| - 1], usage[|usage| - 1];
      assert usage == shorter + [last];
      var refreshed := Refreshed(shorter, rows);
      RecordAdds(shorter, last, rows, agents);
      forall k | 0 <= k < |shorter| ensures IndexOf(refreshed, KeyOf(shorter[k])) < |refreshed| {
        var i := IndexOf(rows, KeyOf(usage[k]));
        assert refreshed[i].key == KeyOf(shorter[k]);
      }
      RowsAddUp(shorter, refreshed, agents);
      assert IndexOf(rows, KeyOf(last)) < |rows|;
    }
  }

  // ---------- Exactly which records the rollups hold ----------

  /** The key of record `k` was last written by a run that read the table after the record. */
  predicate ReadByWriter(r: Record, k: nat, written: map<Key, nat>) {
    KeyOf(r) in written && k < written[KeyOf(r)]
  }

  predicate Covered(t: Tables, k: nat)
    requires k < |t.usage|
  {
    ReadByWriter(t.usage[k], k, t.written)
  }

  /** Every record of these agents is covered. */
  predicate AllCovered(t: Tables, agents: set<Text>) {
    forall k :: 0 <= k < |t.usage| && t.usage[k].agentId in agents ==> Covered(t, k)
  }

  /** The covered records, in their order. */
  function CoveredPart(usage: seq<Record>, written: map<Key, nat>): seq<Record> {
    if usage == [] then []
    else
      var k := |usage| - 1;
      CoveredPart(usage[..k], written) + if ReadByWriter(usage[k], k, written) then [usage[k]] else []
  }

  lemma SumKeyAppend(usage: seq<Record>, r: Record, key: Key)
    ensures SumKey(usage + [r], key) == if KeyOf(r) == key then Plus(SumKey(usage, key), Of(r)) else SumKey(usage, key)
  {
    assert (usage + [r])[..|usage|] == usage;
  }

  function UpTo(usage: seq<Record>, n: nat): seq<Record> { if n < |usage| then usage[..n] else usage }

  lemma UpToStep(front: seq<Record>, r: Record, n: nat)
    ensures UpTo(front + [r], n) == if n > |front| then front + [r] else UpTo(front, n)
    ensures n > |front| ==> UpTo(front, n) == front
  {
    if n <= |front| {
      assert (front + [r])[..n] == front[..n];
      assert front[..|front|] == front;
    }
  }

  lemma CoveredPartStep(front: seq<Record>, r: Record, written: map<Key, nat>)
    ensures CoveredPart(front + [r], written)
         == if ReadByWriter(r, |front|, written) then CoveredPart(front, written) + [r] else CoveredPart(front, written)
  {
    hide ReadByWriter;
    assert (front + [r])[..|front|] == front;
  }

  /** What a row sums up is exactly the covered records of its key. */
  lemma {:induction false} RowHoldsCovered(usage: seq<Record>, written: map<Key, nat>, key: Key)
    requires key in written
    ensures SumKey(CoveredPart(usage, written), key) == SumKey(UpTo(usage, written[key]), key)
    decreases |usage|
  {
    if usage != [] {
      var front, last := usage[..|usage| - 1], usage[|usage| - 1];
      assert usage == front + [last];
      RowHoldsCovered(front, written, key);
      hide Of, Plus, KeyOf, CoveredPart, SumKey, UpTo;
      CoveredPartStep(front, last, written);
      UpToStep(front, last, written[key]);
      SumKeyAppend(CoveredPart(front, written), last, key);
      SumKeyAppend(front, last, key);
    }
  }

  lemma {:induction false} CoveredPartHasRows(rows: seq<Row>, usage: seq<Record>, written: map<Key, nat>)
    requires forall key :: key in written ==> IndexOf(rows, key) < |rows|
    ensures forall i :: 0 <= i < |CoveredPart(usage, written)| ==>
              IndexOf(rows, KeyOf(CoveredPart(usage, written)[i])) < |rows|
    decreases |usage|
  {
    if usage != [] {
      hide KeyOf;
      CoveredPartHasRows(rows, usage[..|usage| - 1], written);
    }
  }

  /** In every state the rollups of any agents are exactly the totals of their covered records. */
  lemma RollupsHoldCovered(t: Tables, agents: set<Text>)
    requires Inv(t)
    ensures RolledTotal(t.rows, agents) == RawTotal(CoveredPart(t.usage, t.written), agents)
  {
    var part := CoveredPart(t.usage, t.written);
    forall i | 0 <= i < |t.rows| ensures t.rows[i].metrics == SumKey(part, t.rows[i].key) {
      var key := t.rows[i].key;
      assert Sound(t.usage, t.written[key], t.rows[i]);
      RowHoldsCovered(t.usage, t.written, key);
      assert t.usage[..|t.usage|] == t.usage;
    }
    CoveredPartHasRows(t.rows, t.usage, t.written);
    RowsAddUp(part, t.rows, agents);
  }

  lemma RawTotalAppend(usage: seq<Record>, r: Record, agents: set<Text>)
    ensures RawTotal(usage + [r], agents)
         == if r.agentId in agents then Plus(RawTotal(usage, agents), Of(r)) else RawTotal(usage, agents)
  {
    assert (usage + [r])[..|usage|] == usage;
  }

  predicate AllRead(usage: seq<Record>, written: map<Key, nat>, agents: set<Text>) {
    forall k :: 0 <= k < |usage| && usage[k].agentId in agents ==> ReadByWriter(usage[k], k, written)
  }

  /** The covered records are as many as all of them only when they are all of them. */
  lemma {:induction false} CoveredIsPart(usage: seq<Record>, written: map<Key, nat>, agents: set<Text>)
    ensures var part, all := RawTotal(CoveredPart(usage, written), agents), RawTotal(usage, agents);
            && part.requestCount <= all.requestCount
            && (part.requestCount == all.requestCount <==> AllRead(usage, written, agents))
            && (AllRead(usage, written, agents) ==> part == all)
    decreases |usage|
  {
    if usage != [] {
      hide ReadByWriter, RawTotal, CoveredPart, AllRead;
      var k := |usage| - 1;
      var front := usage[..k];
      assert usage == front + [usage[k]];
      CoveredIsPart(front, written, agents);
      RawTotalAppend(front, usage[k], agents);
      RawTotalAppend(CoveredPart(front, written), usage[k], agents);
      CoveredPartStep(front, usage[k], written);
      AllReadStep(front, usage[k], written, agents);
    }
  }

  lemma AllReadStep(front: seq<Record>, r: Record, written: map<Key, nat>, agents: set<Text>)
    ensures AllRead(front + [r], written, agents) <==>
              AllRead(front, written, agents) && (r.agentId in agents ==> ReadByWriter(r, |front|, written))
  {
    hide ReadByWriter;
    var all := front + [r];
    assert all[|front|] == r;
    assert forall k :: 0 <= k < |front| ==> all[k] == front[k];
  }

  /** Rollups and raw records agree, in every metric, exactly when every record of the agents is covered. */
  lemma ConservedIff(t: Tables, agents: set<Text>)
    requires Inv(t)
    ensures RolledTotal(t.rows, agents).requestCount <= RawTotal(t.usage, agents).requestCount
    ensures RolledTotal(t.rows, agents) == RawTotal(t.usage, agents) <==> AllCovered(t, agents)
  {
    hide RolledTotal, RawTotal, ReadByWriter;
    RollupsHoldCovered(t, agents);
    CoveredIsPart(t.usage, t.written, agents);
  }
}
