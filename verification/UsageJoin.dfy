/** The usage query of `load` in src/observability/domain-gauges.service.ts: records against rollups. */
module UsageJoin {
  import opened Wrappers
  import opened Rollup
  import opened RollupRuns

  // ---------- The query ----------

  datatype Joined = Joined(record: Record, row: Option<Row>)

  function Matches(rows: seq<Row>, key: Key): (out: seq<Row>)
    ensures |out| <= |rows| && forall i :: 0 <= i < |out| ==> out[i].key == key
    ensures |out| > 0 <==> IndexOf(rows, key) < |rows|
  {
    if rows == [] then []
    else if rows[0].key == key then [rows[0]] + Matches(rows[1..], key)
    else Matches(rows[1..], key)
  }

  function Pair(r: Record, rows: seq<Row>): (out: seq<Joined>)
    ensures |out| == |rows| && forall i :: 0 <= i < |out| ==> out[i] == Joined(r, Some(rows[i]))
  {
    if rows == [] then [] else [Joined(r, Some(rows[0]))] + Pair(r, rows[1..])
  }

  /** LEFT JOIN on agent and hour: one line per match, or one line with nulls. */
  function LeftJoin(usage: seq<Record>, rows: seq<Row>): seq<Joined> {
    if usage == [] then []
    else
      var matches := Matches(rows, KeyOf(usage[0]));
      (if matches == [] then [Joined(usage[0], None)] else Pair(usage[0], matches)) + LeftJoin(usage[1..], rows)
  }

  /** WHERE createdAt >= now - window, applied to the records. */
  function Window(usage: seq<Record>, since: int): seq<Record> {
    if usage == [] then []
    else if usage[0].createdAt >= since then [usage[0]] + Window(usage[1..], since)
    else Window(usage[1..], since)
  }

  /** The three aggregates; SUM and MIN of nothing are null. */
  datatype UsageRow = UsageRow(pending: Option<int>, rolledUp: int, oldest: Option<int>)

  function Earlier(a: Option<int>, b: int): Option<int> { if a.Some? && a.value <= b then a else Some(b) }

  function Aggregate(lines: seq<Joined>): UsageRow {
    if lines == [] then UsageRow(None, 0, None)
    else
      var rest := Aggregate(lines[1..]);
      var before := if rest.pending.Some? then rest.pending.value else 0;
      match lines[0].row
      case None => UsageRow(Some(before + 1), rest.rolledUp, Earlier(rest.oldest, lines[0].record.createdAt))
      case Some(_) => UsageRow(Some(before), rest.rolledUp + 1, rest.oldest)
  }

  /** The gauges; the lag is in milliseconds here. */
  datatype Gauges = Gauges(pending: int, rolledUp: int, lag: int)

  function Max(a: int, b: int): int { if a > b then a else b }

  /** `Number(x ?? 0)` throughout, and never a negative lag. */
  function Load(t: Tables, now: int, windowMs: int): Gauges {
    var u := Aggregate(LeftJoin(Window(t.usage, now - windowMs), t.rows));
    Gauges(if u.pending.Some? then u.pending.value else 0, u.rolledUp,
           if u.oldest.Some? then Max(0, now - u.oldest.value) else 0)
  }

  // ---------- What the gauges mean ----------

  predicate Pending(rows: seq<Row>, r: Record) { IndexOf(rows, KeyOf(r)) == |rows| }

  function CountPending(usage: seq<Record>, rows: seq<Row>): nat {
    if usage == [] then 0 else (if Pending(rows, usage[0]) then 1 else 0) + CountPending(usage[1..], rows)
  }

  /** How many lines the join makes of the records that have a row. */
  function CountMatches(usage: seq<Record>, rows: seq<Row>): nat {
    if usage == [] then 0 else |Matches(rows, KeyOf(usage[0]))| + CountMatches(usage[1..], rows)
  }

  /** The oldest record without a row. */
  function OldestPending(usage: seq<Record>, rows: seq<Row>): Option<int> {
    if usage == [] then None
    else if Pending(rows, usage[0]) then Earlier(OldestPending(usage[1..], rows), usage[0].createdAt)
    else OldestPending(usage[1..], rows)
  }

  function Value(x: Option<int>): int { if x.Some? then x.value else 0 }

  lemma {:induction false} AggregateMatched(r: Record, matches: seq<Row>, rest: seq<Joined>)
    ensures var u, v := Aggregate(Pair(r, matches) + rest), Aggregate(rest);
            Value(u.pending) == Value(v.pending) && u.rolledUp == v.rolledUp + |matches| && u.oldest == v.oldest
  {
    if matches == [] {
      assert Pair(r, matches) + rest == rest;
    } else {
      AggregateMatched(r, matches[1..], rest);
      assert (Pair(r, matches) + rest)[1..] == Pair(r, matches[1..]) + rest;
    }
  }

  lemma {:induction false} AggregateJoin(usage: seq<Record>, rows: seq<Row>)
    ensures var u := Aggregate(LeftJoin(usage, rows));
            && Value(u.pending) == CountPending(usage, rows) && u.rolledUp == CountMatches(usage, rows)
            && u.oldest == OldestPending(usage, rows)
  {
    if usage != [] {
      hide KeyOf;
      AggregateJoin(usage[1..], rows);
      var rest := LeftJoin(usage[1..], rows);
      AggregateMatched(usage[0], Matches(rows, KeyOf(usage[0])), rest);
      assert ([Joined(usage[0], None)] + rest)[1..] == rest;
    }
  }

  /** No record of the window matches two rows. */
  predicate MatchesOnce(usage: seq<Record>, rows: seq<Row>) {
    forall i :: 0 <= i < |usage| ==> |Matches(rows, KeyOf(usage[i]))| <= 1
  }

  lemma {:induction false} CountsAddUp(usage: seq<Record>, rows: seq<Row>)
    ensures CountPending(usage, rows) + CountMatches(usage, rows) >= |usage|
    ensures CountPending(usage, rows) + CountMatches(usage, rows) == |usage| <==> MatchesOnce(usage, rows)
  {
    if usage != [] {
      hide KeyOf;
      CountsAddUp(usage[1..], rows);
      if MatchesOnce(usage[1..], rows) {
        assert forall i :: 0 < i < |usage| ==> usage[i] == usage[1..][i - 1];
      } else {
        var i :| 0 <= i < |usage[1..]| && |Matches(rows, KeyOf(usage[1..][i]))| > 1;
        assert usage[1..][i] == usage[i + 1];
      }
    }
  }

  /** pending + rolled_up is the number of records in the window exactly when the join duplicates none. */
  lemma AddsUpIff(t: Tables, now: int, windowMs: int)
    ensures var g, seen := Load(t, now, windowMs), Window(t.usage, now - windowMs);
            && g.pending + g.rolledUp >= |seen|
            && (g.pending + g.rolledUp == |seen| <==> MatchesOnce(seen, t.rows))
  {
    var seen := Window(t.usage, now - windowMs);
    AggregateJoin(seen, t.rows);
    CountsAddUp(seen, t.rows);
  }

  lemma {:induction false} UniqueMatchesOnce(rows: seq<Row>, key: Key)
    requires UniqueRows(rows)
    ensures |Matches(rows, key)| <= 1
  {
    if rows != [] {
      forall i, j | 0 <= i < j < |rows[1..]| ensures rows[1..][i].key != rows[1..][j].key {
        assert rows[i + 1].key != rows[j + 1].key;
      }
      UniqueMatchesOnce(rows[1..], key);
      var i := IndexOf(rows[1..], key);
      assert i < |rows[1..]| ==> rows[i + 1].key == key;
    }
  }

  /** In every reachable state, with overlapping runs and crashes, the gauges split the window's records. */
  lemma GaugesSplitTheWindow(run: seq<Event>, now: int, windowMs: int)
    requires RunEvents(INITIAL, run).Some?
    ensures var t := RunEvents(INITIAL, run).value.tables;
            var g, seen := Load(t, now, windowMs), Window(t.usage, now - windowMs);
            && g.pending == CountPending(seen, t.rows)
            && g.rolledUp == |seen| - CountPending(seen, t.rows)
  {
    hide RunEvents;
    OverlappingRunsConserve(run, {});
    var t := RunEvents(INITIAL, run).value.tables;
    var seen := Window(t.usage, now - windowMs);
    forall i | 0 <= i < |seen| ensures |Matches(t.rows, KeyOf(seen[i]))| <= 1 {
      UniqueMatchesOnce(t.rows, KeyOf(seen[i]));
    }
    AddsUpIff(t, now, windowMs);
    AggregateJoin(seen, t.rows);
  }

  predicate PendingIn(usage: seq<Record>, rows: seq<Row>, since: int, k: int) {
    0 <= k < |usage| && usage[k].createdAt >= since && Pending(rows, usage[k])
  }

  lemma PendingShift(usage: seq<Record>, rows: seq<Row>, since: int, k: int)
    requires usage != []
    ensures k > 0 ==> (PendingIn(usage, rows, since, k) <==> PendingIn(usage[1..], rows, since, k - 1))
  {
    hide Pending;
  }

  lemma {:induction false} OldestIsOldest(usage: seq<Record>, rows: seq<Row>, since: int) returns (oldest: int)
    ensures var found := OldestPending(Window(usage, since), rows);
            && (found.Some? ==> PendingIn(usage, rows, since, oldest) && usage[oldest].createdAt == found.value)
            && (forall k :: PendingIn(usage, rows, since, k) ==> found.Some? && found.value <= usage[k].createdAt)
  {
    oldest := 0;
    if usage != [] {
      var later := OldestIsOldest(usage[1..], rows, since);
      PendingShift(usage, rows, since, later + 1);
      hide Pending;
      var found := OldestPending(Window(usage, since), rows);
      var first := PendingIn(usage, rows, since, 0) && found.Some? && found.value == usage[0].createdAt;
      oldest := if found.Some? && !first then later + 1 else 0;
      forall k | PendingIn(usage, rows, since, k) ensures found.Some? && found.value <= usage[k].createdAt {
        PendingShift(usage, rows, since, k);
      }
    }
  }

  /** The lag is the age of the oldest pending record of the window, or 0 when none is pending. */
  lemma LagIsAgeOfOldest(t: Tables, now: int, windowMs: int, since: int)
    requires since == now - windowMs
    ensures var lag := Load(t, now, windowMs).lag;
            if exists k :: PendingIn(t.usage, t.rows, since, k) then
              (exists k :: PendingIn(t.usage, t.rows, since, k) && lag == Max(0, now - t.usage[k].createdAt))
              && (forall k :: PendingIn(t.usage, t.rows, since, k) ==> lag >= now - t.usage[k].createdAt)
            else lag == 0
  {
    hide Pending;
    AggregateJoin(Window(t.usage, since), t.rows);
    var oldest := OldestIsOldest(t.usage, t.rows, since);
  }

  // ---------- When a record stops being pending ----------

  /** Pending means that no run has ever written the key. */
  lemma PendingIff(t: Tables, r: Record)
    requires Inv(t)
    ensures Pending(t.rows, r) <==> KeyOf(r) !in t.written
  {
    hide KeyOf, Sound, UniqueRows;
    var i := IndexOf(t.rows, KeyOf(r));
    if i < |t.rows| {
      assert t.rows[i].key in t.written;
    }
  }

  /** No event of any run, overlapping or not, makes a record pending that was not. */
  lemma RolledUpStays(s: State, e: Event, r: Record)
    requires StateInv(s) && Step(s, e).Some? && !Pending(s.tables.rows, r)
    ensures !Pending(Step(s, e).value.tables.rows, r)
  {
    EventKeeps(s, e);
    hide Inv, Pending, KeyOf, Accounted, AllSound, GroupOrder, TruncateToHour, Upsert;
    PendingIff(s.tables, r);
    PendingIff(Step(s, e).value.tables, r);
  }

  lemma {:induction false} RolledUpLasts(s: State, run: seq<Event>, r: Record)
    requires StateInv(s) && RunEvents(s, run).Some? && !Pending(s.tables.rows, r)
    ensures !Pending(RunEvents(s, run).value.tables.rows, r)
    decreases |run|
  {
    if run != [] {
      hide StateInv, Step, Pending;
      EventKeeps(s, run[0]);
      RolledUpStays(s, run[0], r);
      RolledUpLasts(Step(s, run[0]).value, run[1..], r);
    }
  }

  /**
   * In every reachable state, whatever else runs: once a pass has written all its
   * rows, no record of its hour that it read is pending, then or later.
   */
  lemma CompletedPassClearsPending(before: seq<Event>, after: seq<Event>, pass: nat, k: nat)
    requires RunEvents(INITIAL, before).Some? && RunEvents(RunEvents(INITIAL, before).value, after).Some?
    requires var s := RunEvents(INITIAL, before).value;
             && pass in s.passes && s.passes[pass].todo == []
             && k < s.passes[pass].readAt && k < |s.tables.usage|
             && TruncateToHour(s.tables.usage[k].createdAt) == s.passes[pass].hour
    ensures var s := RunEvents(INITIAL, before).value;
            var end := RunEvents(s, after).value;
            !Pending(s.tables.rows, s.tables.usage[k]) && !Pending(end.tables.rows, s.tables.usage[k])
  {
    var s := RunEvents(INITIAL, before).value;
    EventsKeep(INITIAL, before);
    assert Accounted(s.tables, s.passes[pass]);
    hide RunEvents, TruncateToHour, Pending;
    PendingIff(s.tables, s.tables.usage[k]);
    RolledUpLasts(s, after, s.tables.usage[k]);
  }

  // ---------- When "rolled up" is true ----------

  /** The gauges count the record as rolled up, but no rollup holds it. */
  predicate FalselyRolledUp(t: Tables, k: nat)
    requires k < |t.usage|
  {
    !Pending(t.rows, t.usage[k]) && !Covered(t, k)
  }

  predicate Seen(t: Tables, since: int, k: nat)
    requires k < |t.usage|
  {
    t.usage[k].createdAt >= since
  }

  /** Of the first `n` records, those in the window that the gauges count as rolled up. */
  function CountShown(t: Tables, since: int, n: nat): nat
    requires n <= |t.usage|
  {
    if n == 0 then 0
    else CountShown(t, since, n - 1) + if Seen(t, since, n - 1) && !Pending(t.rows, t.usage[n - 1]) then 1 else 0
  }

  /** Of the first `n` records, those in the window that a rollup holds. */
  function CountHeld(t: Tables, since: int, n: nat): nat
    requires n <= |t.usage|
  {
    if n == 0 then 0
    else CountHeld(t, since, n - 1) + if Seen(t, since, n - 1) && Covered(t, n - 1) then 1 else 0
  }

  /** The record came after the last writer of its key had read the table. */
  lemma FalselyRolledUpIff(t: Tables, k: nat)
    requires Inv(t) && k < |t.usage|
    ensures FalselyRolledUp(t, k) <==> KeyOf(t.usage[k]) in t.written && t.written[KeyOf(t.usage[k])] <= k
    ensures Covered(t, k) ==> !Pending(t.rows, t.usage[k])
  {
    hide Inv, KeyOf, Pending;
    PendingIff(t, t.usage[k]);
  }

  lemma FalselyMeans(t: Tables, k: nat)
    requires k < |t.usage|
    ensures FalselyRolledUp(t, k) <==> !Pending(t.rows, t.usage[k]) && !Covered(t, k)
  {
  }

  /** Of the first `n` records, those in the window that are counted as rolled up without being in a rollup. */
  function CountFalse(t: Tables, since: int, n: nat): nat
    requires n <= |t.usage|
  {
    if n == 0 then 0
    else CountFalse(t, since, n - 1) + if Seen(t, since, n - 1) && FalselyRolledUp(t, n - 1) then 1 else 0
  }

  lemma {:induction false} ShownAgainstHeld(t: Tables, since: int, n: nat)
    requires Inv(t) && n <= |t.usage|
    ensures CountShown(t, since, n) == CountHeld(t, since, n) + CountFalse(t, since, n)
  {
    if n > 0 {
      hide Inv, Pending, Covered, Seen, FalselyRolledUp;
      FalselyMeans(t, n - 1);
      FalselyRolledUpIff(t, n - 1);
      ShownAgainstHeld(t, since, n - 1);
    }
  }

  lemma {:induction false} NoneFalse(t: Tables, since: int, n: nat)
    requires n <= |t.usage|
    ensures CountFalse(t, since, n) == 0 <==> forall k :: 0 <= k < n && Seen(t, since, k) ==> !FalselyRolledUp(t, k)
  {
    if n > 0 {
      hide Seen, FalselyRolledUp;
      NoneFalse(t, since, n - 1);
    }
  }

  lemma {:induction false} WindowAppend(usage: seq<Record>, r: Record, since: int)
    ensures Window(usage + [r], since) == Window(usage, since) + if r.createdAt >= since then [r] else []
  {
    if usage == [] {
      assert usage + [r] == [r] && [r][1..] == [];
    } else {
      WindowAppend(usage[1..], r, since);
      assert (usage + [r])[1..] == usage[1..] + [r];
    }
  }

  lemma {:induction false} PendingAppend(usage: seq<Record>, r: Record, rows: seq<Row>)
    ensures CountPending(usage + [r], rows) == CountPending(usage, rows) + if Pending(rows, r) then 1 else 0
  {
    hide Pending;
    if usage == [] {
      assert usage + [r] == [r] && [r][1..] == [];
    } else {
      PendingAppend(usage[1..], r, rows);
      assert (usage + [r])[1..] == usage[1..] + [r];
    }
  }

  lemma {:induction false} ShownIsRest(t: Tables, since: int, n: nat)
    requires n <= |t.usage|
    ensures var seen := Window(t.usage[..n], since); CountShown(t, since, n) == |seen| - CountPending(seen, t.rows)
  {
    if n == 0 {
      assert t.usage[..0] == [];
    } else {
      hide Pending, Window, CountPending;
      ShownIsRest(t, since, n - 1);
      assert t.usage[..n] == t.usage[..n - 1] + [t.usage[n - 1]];
      var before := Window(t.usage[..n - 1], since);
      WindowAppend(t.usage[..n - 1], t.usage[n - 1], since);
      PendingAppend(before, t.usage[n - 1], t.rows);
      assert before + [] == before;
    }
  }

  /** No record of the window came after the last writer of its key had read the table. */
  predicate NoneAfterReading(t: Tables, since: int) {
    forall k :: 0 <= k < |t.usage| && Seen(t, since, k) && KeyOf(t.usage[k]) in t.written ==>
      k < t.written[KeyOf(t.usage[k])]
  }

  /**
   * In every reachable state: rolled_up is at least the number of window records
   * that the rollups hold, and is that number exactly when no window record came
   * after the last writer of its key had read the table.
   */
  lemma RolledUpIsTrueIff(run: seq<Event>, now: int, windowMs: int, since: int)
    requires RunEvents(INITIAL, run).Some? && since == now - windowMs
    ensures var t := RunEvents(INITIAL, run).value.tables;
            var g, held := Load(t, now, windowMs), CountHeld(t, since, |t.usage|);
            && g.rolledUp >= held
            && (g.rolledUp == held <==> NoneAfterReading(t, since))
  {
    ReachableTables(run, now, windowMs);
    hide *;
    TruthOfShown(RunEvents(INITIAL, run).value.tables, since);
  }

  lemma ReachableTables(run: seq<Event>, now: int, windowMs: int)
    requires RunEvents(INITIAL, run).Some?
    ensures var t := RunEvents(INITIAL, run).value.tables;
            var seen := Window(t.usage, now - windowMs);
            Inv(t) && Load(t, now, windowMs).rolledUp == |seen| - CountPending(seen, t.rows)
  {
    GaugesSplitTheWindow(run, now, windowMs);
    EventsKeep(INITIAL, run);
  }

  lemma TruthOfShown(t: Tables, since: int)
    requires Inv(t)
    ensures var seen, held := Window(t.usage, since), CountHeld(t, since, |t.usage|);
            var shown := |seen| - CountPending(seen, t.rows);
            && shown >= held
            && (shown == held <==> NoneAfterReading(t, since))
  {
    ShownIsRest(t, since, |t.usage|);
    assert t.usage[..|t.usage|] == t.usage;
    ShownAgainstHeld(t, since, |t.usage|);
    NoneFalse(t, since, |t.usage|);
    hide Inv, Pending, Covered, KeyOf, CountHeld, CountShown, CountFalse, Window, CountPending, Seen, FalselyRolledUp;
    forall k | 0 <= k < |t.usage|
      ensures FalselyRolledUp(t, k) <==> KeyOf(t.usage[k]) in t.written && t.written[KeyOf(t.usage[k])] <= k
    {
      FalselyRolledUpIff(t, k);
    }
  }

  // ---------- A reachable state in which it is not ----------

  /** The hour is rolled up, then one more of its records arrives. */
  function LateRecord(r: Record): seq<Event> { [Insert(r), Read(0, r.createdAt, [r.agentId]), Write(0), Insert(r)] }

  lemma LateRecordState(r: Record)
    ensures RunEvents(INITIAL, LateRecord(r)).Some?
    ensures var t := RunEvents(INITIAL, LateRecord(r)).value.tables;
            t == Tables([r, r], [Row(KeyOf(r), SumKey([r], KeyOf(r)))], map[KeyOf(r) := 1])
  {
    GroupOfOne(r, [r]);
    hide TruncateToHour, GroupOrder, Aggregates, SumKey, RunEvents, KeyOf;
    var hour, row := TruncateToHour(r.createdAt), Row(KeyOf(r), SumKey([r], KeyOf(r)));
    assert [] + [r] == [r] && [r] + [r] == [r, r] && [] + [row] == [row] && [row][1..] == [];
    var s1 := State(Tables([r], [], map[]), map[]);
    var s2 := s1.(passes := map[0 := Pass(1, hour, [row])]);
    var s3 := State(Tables([r], [row], map[KeyOf(r) := 1]), map[0 := Pass(1, hour, [])]);
    assert Step(INITIAL, Insert(r)) == Some(s1);
    assert Step(s1, Read(0, r.createdAt, [r.agentId])) == Some(s2);
    assert Upsert([], row) == [row] && s2.passes[0 := Pass(1, hour, [])] == s3.passes;
    assert Step(s2, Write(0)) == Some(s3);
    var last := [Write(0)] + [Insert(r)];
    RunFirst(s3, Insert(r), []);
    assert [Insert(r)] + [] == [Insert(r)];
    NoEvents(Step(s3, Insert(r)).value);
    RunFirst(s2, Write(0), [Insert(r)]);
    RunFirst(s1, Read(0, r.createdAt, [r.agentId]), last);
    RunFirst(INITIAL, Insert(r), [Read(0, r.createdAt, [r.agentId])] + last);
    assert LateRecord(r) == [Insert(r)] + ([Read(0, r.createdAt, [r.agentId])] + last);
  }

  /** Both records are shown as rolled up and none as pending; the rollups hold one. */
  lemma LateRecordLooksRolledUp(r: Record)
    ensures RunEvents(INITIAL, LateRecord(r)).Some?
    ensures var t := RunEvents(INITIAL, LateRecord(r)).value.tables;
            && Load(t, r.createdAt, 0) == Gauges(0, 2, 0) && |t.usage| == 2 && FalselyRolledUp(t, 1)
            && RolledTotal(t.rows, {r.agentId}).requestCount == 1 && RawTotal(t.usage, {r.agentId}).requestCount == 2
  {
    LateRecordState(r);
    hide RunEvents, LateRecord, TruncateToHour;
    GroupOfOne(r, [r]);
    GroupOfOne(r, [r, r]);
    var row := Row(KeyOf(r), SumKey([r], KeyOf(r)));
    var t := Tables([r, r], [row], map[KeyOf(r) := 1]);
    hide SumKey, RawTotal, KeyOf;
    assert [row][1..] == [];
    OneShown(r, t.rows);
    TwoShown(r, t.rows);
    AggregateJoin([r, r], t.rows);
  }

  lemma OneShown(r: Record, rows: seq<Row>)
    requires |rows| == 1 && rows[0].key == KeyOf(r)
    ensures !Pending(rows, r) && |Matches(rows, KeyOf(r))| == 1
  {
    hide KeyOf;
    assert rows[1..] == [];
  }

  lemma TwoShown(r: Record, rows: seq<Row>)
    requires !Pending(rows, r) && |Matches(rows, KeyOf(r))| == 1
    ensures Window([r, r], r.createdAt) == [r, r]
    ensures CountPending([r, r], rows) == 0 && CountMatches([r, r], rows) == 2 && OldestPending([r, r], rows) == None
  {
    hide KeyOf, Pending, Matches;
    var one, two := [r], [r, r];
    assert one[1..] == [] && two[1..] == one;
    assert Window(one, r.createdAt) == one && one + one == two;
    assert CountPending(one, rows) == 0 && CountMatches(one, rows) == 1 && OldestPending(one, rows) == None;
  }
}
