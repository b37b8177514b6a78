/** Runs of the rollup job: repeated, cut off, re-run, and overlapping with one another. */
module RollupRuns {
  import opened Wrappers
  import opened Utf16
  import opened Rollup

  // ---------- One whole run ----------

  function UpsertAll(rows: seq<Row>, from: seq<Row>): seq<Row>
    decreases |from|
  {
    if from == [] then rows else UpsertAll(Upsert(rows, from[0]), from[1..])
  }

  lemma {:induction false} WriteAllRows(t: Tables, readAt: nat, from: seq<Row>)
    ensures WriteAll(t, readAt, from).rows == UpsertAll(t.rows, from)
    ensures WriteAll(t, readAt, from).usage == t.usage
    decreases |from|
  {
    if from != [] {
      hide Upsert;
      WriteAllRows(WriteRow(t, readAt, from[0]), readAt, from[1..]);
    }
  }

  predicate AllSound(usage: seq<Record>, readAt: nat, rows: seq<Row>) {
    forall i :: 0 <= i < |rows| ==> Sound(usage, readAt, rows[i])
  }

  lemma {:induction false} WriteAllKeeps(t: Tables, readAt: nat, from: seq<Row>)
    requires Inv(t) && AllSound(t.usage, readAt, from)
    ensures Inv(WriteAll(t, readAt, from))
    decreases |from|
  {
    if from != [] {
      hide Inv, Sound, Upsert;
      assert Sound(t.usage, readAt, from[0]);
      WriteKeeps(t, readAt, from[0]);
      WriteAllKeeps(WriteRow(t, readAt, from[0]), readAt, from[1..]);
    }
  }

  lemma {:induction false} WriteAllWritten(t: Tables, readAt: nat, from: seq<Row>, key: Key)
    ensures var w := WriteAll(t, readAt, from).written;
            if exists i :: 0 <= i < |from| && from[i].key == key then key in w && w[key] == readAt
            else (key in w <==> key in t.written) && (key in w ==> w[key] == t.written[key])
    decreases |from|
  {
    if from != [] {
      hide Upsert;
      WriteAllWritten(WriteRow(t, readAt, from[0]), readAt, from[1..], key);
      assert forall i :: 0 <= i < |from[1..]| ==> from[1..][i] == from[i + 1];
      if i :| 0 < i < |from| && from[i].key == key {
        assert from[1..][i - 1].key == key;
      }
    }
  }

  function Taken(t: Tables, referenceDate: int, order: seq<Text>, upTo: nat): seq<Row> {
    var aggregates := Aggregates(t.usage, TruncateToHour(referenceDate), order);
    if upTo < |aggregates| then aggregates[..upTo] else aggregates
  }

  lemma TakenRows(t: Tables, referenceDate: int, order: seq<Text>, upTo: nat)
    ensures var taken := Taken(t, referenceDate, order, upTo);
            && AllSound(t.usage, |t.usage|, taken)
            && (forall i :: 0 <= i < |taken| ==>
                 i < |order| && taken[i].key == Key(order[i], TruncateToHour(referenceDate)))
            && (upTo >= |order| ==> |taken| == |order|)
  {
    hide TruncateToHour, KeyOf;
    var taken := Taken(t, referenceDate, order, upTo);
    HoursTile(referenceDate, TruncateToHour(0)) by { HoursTile(0, 0); }
    assert t.usage[..|t.usage|] == t.usage;
    forall i | 0 <= i < |taken| ensures Sound(t.usage, |t.usage|, taken[i]) {
      GroupIsKey(t.usage, order[i], TruncateToHour(referenceDate));
    }
  }

  /** A run touches only rows of its hour: the others stay, in place. */
  lemma {:induction false} OtherHoursStay(rows: seq<Row>, from: seq<Row>, hour: int)
    requires UniqueRows(rows) && forall i :: 0 <= i < |from| ==> from[i].key.hourBucket == hour
    ensures var next := UpsertAll(rows, from);
            && UniqueRows(next) && |rows| <= |next|
            && (forall i :: 0 <= i < |rows| ==> next[i].key == rows[i].key)
            && (forall i :: 0 <= i < |rows| && rows[i].key.hourBucket != hour ==> next[i] == rows[i])
            && (forall i :: |rows| <= i < |next| ==> next[i].key.hourBucket == hour)
    decreases |from|
  {
    if from != [] {
      hide Upsert, UniqueRows;
      UpsertAt(rows, from[0]);
      OtherHoursStay(Upsert(rows, from[0]), from[1..], hour);
    }
  }

  lemma RunTouchesOneHour(t: Tables, referenceDate: int, order: seq<Text>, upTo: nat)
    requires Inv(t)
    ensures var next, hour := RunUpTo(t, referenceDate, order, upTo), TruncateToHour(referenceDate);
            && next.usage == t.usage && |t.rows| <= |next.rows|
            && (forall i :: 0 <= i < |t.rows| && t.rows[i].key.hourBucket != hour ==> next.rows[i] == t.rows[i])
            && (forall i :: |t.rows| <= i < |next.rows| ==> next.rows[i].key.hourBucket == hour)
  {
    var taken := Taken(t, referenceDate, order, upTo);
    TakenRows(t, referenceDate, order, upTo);
    WriteAllRows(t, |t.usage|, taken);
    OtherHoursStay(t.rows, taken, TruncateToHour(referenceDate));
  }

  // ---------- Repeating and recovering ----------

  predicate Holds(rows: seq<Row>, row: Row) { IndexOf(rows, row.key) < |rows| && rows[IndexOf(rows, row.key)] == row }

  predicate HoldsAll(rows: seq<Row>, from: seq<Row>) { forall i :: 0 <= i < |from| ==> Holds(rows, from[i]) }

  lemma UpsertHolds(rows: seq<Row>, row: Row, other: Row)
    requires UniqueRows(rows)
    ensures Holds(Upsert(rows, row), row) && UniqueRows(Upsert(rows, row))
    ensures Holds(rows, other) && other.key != row.key ==> Holds(Upsert(rows, row), other)
    ensures Holds(rows, row) ==> Upsert(rows, row) == rows
  {
    UpsertAt(rows, row);
    var next := Upsert(rows, row);
    assert next[IndexOf(rows, row.key)].key == row.key;
    if Holds(rows, other) {
      assert next[IndexOf(rows, other.key)].key == other.key;
    }
  }

  lemma {:induction false} HeldStays(rows: seq<Row>, from: seq<Row>, row: Row)
    requires UniqueRows(rows) && Holds(rows, row)
    requires forall i :: 0 <= i < |from| ==> from[i].key != row.key
    ensures Holds(UpsertAll(rows, from), row)
    decreases |from|
  {
    if from != [] {
      hide Upsert, UniqueRows, Holds;
      UpsertHolds(rows, from[0], row);
      HeldStays(Upsert(rows, from[0]), from[1..], row);
    }
  }

  lemma {:induction false} UpsertAllHolds(rows: seq<Row>, from: seq<Row>)
    requires UniqueRows(rows) && UniqueRows(from)
    ensures HoldsAll(UpsertAll(rows, from), from) && UniqueRows(UpsertAll(rows, from))
    decreases |from|
  {
    if from != [] {
      hide Upsert, Holds;
      var next := Upsert(rows, from[0]);
      UpsertHolds(rows, from[0], from[0]);
      UpsertAllHolds(next, from[1..]);
      HeldStays(next, from[1..], from[0]);
      forall i | 0 < i < |from| ensures Holds(UpsertAll(rows, from), from[i]) {
        assert from[i] == from[1..][i - 1];
      }
    }
  }

  lemma {:induction false} HeldChangesNothing(rows: seq<Row>, from: seq<Row>)
    requires UniqueRows(rows) && HoldsAll(rows, from)
    ensures UpsertAll(rows, from) == rows
    decreases |from|
  {
    if from != [] {
      hide Upsert, Holds;
      assert Holds(rows, from[0]);
      UpsertHolds(rows, from[0], from[0]);
      HeldChangesNothing(rows, from[1..]);
    }
  }

  lemma UpsertAllFirst(rows: seq<Row>, from: seq<Row>, first: Row, rest: seq<Row>)
    requires from == [first] + rest
    ensures UpsertAll(rows, from) == UpsertAll(Upsert(rows, first), rest)
  {
    hide Upsert;
    assert from[1..] == rest;
  }

  lemma {:induction false} UpsertAllAppend(rows: seq<Row>, a: seq<Row>, b: seq<Row>)
    ensures UpsertAll(rows, a + b) == UpsertAll(UpsertAll(rows, a), b)
    decreases |a|
  {
    if a == [] {
      assert a + b == b;
    } else {
      assert a == [a[0]] + a[1..] && a + b == [a[0]] + (a[1..] + b);
      hide Upsert, UpsertAll;
      UpsertAllFirst(rows, a + b, a[0], a[1..] + b);
      UpsertAllFirst(rows, a, a[0], a[1..]);
      UpsertAllAppend(Upsert(rows, a[0]), a[1..], b);
    }
  }

  lemma TakenUnique(t: Tables, referenceDate: int, order: seq<Text>, upTo: nat)
    requires GroupOrder(t.usage, TruncateToHour(referenceDate), order)
    ensures UniqueRows(Taken(t, referenceDate, order, upTo))
  {
  }

  /** Groups come in any order, but they are the same groups. */
  lemma SameGroups(t: Tables, u: Tables, first: int, order: seq<Text>, second: int, reorder: seq<Text>, upTo: nat,
                   rows: seq<Row>)
    requires u.usage == t.usage && TruncateToHour(first) == TruncateToHour(second)
    requires GroupOrder(t.usage, TruncateToHour(first), order) && GroupOrder(t.usage, TruncateToHour(second), reorder)
    requires HoldsAll(rows, Taken(t, first, order, |order|))
    ensures HoldsAll(rows, Taken(u, second, reorder, upTo))
  {
    hide TruncateToHour, SumGroup, Holds;
    var before, again := Taken(t, first, order, |order|), Taken(u, second, reorder, upTo);
    forall i | 0 <= i < |again| ensures Holds(rows, again[i]) {
      assert reorder[i] in order;
      var j :| 0 <= j < |order| && order[j] == reorder[i];
      assert again[i] == before[j];
    }
  }

  /** Re-running an hour on the same records, in whatever order the database groups them, changes no row. */
  lemma RerunChangesNothing(t: Tables, first: int, order: seq<Text>, second: int, reorder: seq<Text>, upTo: nat)
    requires Inv(t) && TruncateToHour(first) == TruncateToHour(second)
    requires GroupOrder(t.usage, TruncateToHour(first), order) && GroupOrder(t.usage, TruncateToHour(second), reorder)
    ensures var once := RunUpTo(t, first, order, |order|);
            RunUpTo(once, second, reorder, upTo).rows == once.rows
  {
    hide TruncateToHour, SumGroup, GroupOrder, Aggregates, HoldsAll, UpsertAll, WriteAll;
    var rows := Taken(t, first, order, |order|);
    var once := RunUpTo(t, first, order, |order|);
    TakenUnique(t, first, order, |order|);
    WriteAllRows(t, |t.usage|, rows);
    UpsertAllHolds(t.rows, rows);
    SameGroups(t, once, first, order, second, reorder, upTo, once.rows);
    var again := Taken(once, second, reorder, upTo);
    WriteAllRows(once, |once.usage|, again);
    HeldChangesNothing(once.rows, again);
  }

  /** A run that was cut off anywhere and is then run again leaves the rows an uninterrupted run leaves. */
  lemma RerunRecovers(t: Tables, referenceDate: int, order: seq<Text>, cut: nat)
    requires Inv(t) && GroupOrder(t.usage, TruncateToHour(referenceDate), order)
    ensures RunUpTo(RunUpTo(t, referenceDate, order, cut), referenceDate, order, |order|).rows
         == RunUpTo(t, referenceDate, order, |order|).rows
  {
    hide TruncateToHour, SumGroup, Upsert;
    var all := Taken(t, referenceDate, order, |order|);
    var done := Taken(t, referenceDate, order, cut);
    TakenUnique(t, referenceDate, order, cut);
    var n := |done|;
    assert all == done + all[n..];
    WriteAllRows(t, |t.usage|, all);
    WriteAllRows(t, |t.usage|, done);
    var partial := RunUpTo(t, referenceDate, order, cut);
    WriteAllRows(partial, |t.usage|, all);
    UpsertAllHolds(t.rows, done);
    HeldChangesNothing(partial.rows, done);
    UpsertAllAppend(partial.rows, done, all[n..]);
    UpsertAllAppend(t.rows, done, all[n..]);
  }

  // ---------- Runs one after another ----------

  datatype Job = Arrive(record: Record) | RunJob(referenceDate: int, order: seq<Text>, upTo: nat)

  /** None when the group order is not one the database could give. */
  function After(jobs: seq<Job>): Option<Tables>
    decreases |jobs|
  {
    if jobs == [] then Some(EMPTY)
    else
      match After(jobs[..|jobs| - 1])
      case None => None
      case Some(t) => AfterOne(t, jobs[|jobs| - 1])
  }

  function AfterOne(t: Tables, job: Job): Option<Tables> {
    match job
    case Arrive(r) => Some(t.(usage := t.usage + [r]))
    case RunJob(referenceDate, order, upTo) =>
      if GroupOrder(t.usage, TruncateToHour(referenceDate), order) then Some(RunUpTo(t, referenceDate, order, upTo))
      else None
  }

  predicate Completes(job: Job, hour: int) {
    job.RunJob? && TruncateToHour(job.referenceDate) == hour && job.upTo >= |job.order|
  }

  predicate CompletedAfter(jobs: seq<Job>, i: nat, hour: int) { exists j :: i < j < |jobs| && Completes(jobs[j], hour) }

  /** Each hour's last complete run comes after the hour's last record. */
  predicate Served(jobs: seq<Job>) {
    forall i :: 0 <= i < |jobs| && jobs[i].Arrive? ==> CompletedAfter(jobs, i, TruncateToHour(jobs[i].record.createdAt))
  }

  lemma OneKeeps(t: Tables, job: Job, k: nat)
    requires Inv(t) && AfterOne(t, job).Some? && k < |t.usage|
    ensures var next := AfterOne(t, job).value;
            && Inv(next) && t.usage <= next.usage
            && (Covered(t, k) || Completes(job, TruncateToHour(t.usage[k].createdAt)) ==> Covered(next, k))
  {
    hide Inv;
    match job
    case Arrive(r) => InsertKeeps(t, r);
    case RunJob(referenceDate, order, upTo) => RunCovers(t, referenceDate, order, upTo, k);
  }

  lemma RunCovers(t: Tables, referenceDate: int, order: seq<Text>, upTo: nat, k: nat)
    requires Inv(t) && k < |t.usage| && GroupOrder(t.usage, TruncateToHour(referenceDate), order)
    ensures var next := RunUpTo(t, referenceDate, order, upTo);
            var sameHour := TruncateToHour(referenceDate) == TruncateToHour(t.usage[k].createdAt);
            && Inv(next) && next.usage == t.usage
            && (Covered(t, k) || (sameHour && upTo >= |order|) ==> Covered(next, k))
  {
    hide Inv, Sound, SumGroup, WriteAll;
    var taken := Taken(t, referenceDate, order, upTo);
    TakenRows(t, referenceDate, order, upTo);
    WriteAllKeeps(t, |t.usage|, taken);
    WriteAllRows(t, |t.usage|, taken);
    WriteAllWritten(t, |t.usage|, taken, KeyOf(t.usage[k]));
    if TruncateToHour(referenceDate) == TruncateToHour(t.usage[k].createdAt) && upTo >= |order| {
      HoursTile(t.usage[k].createdAt, TruncateToHour(referenceDate)) by { HoursTile(referenceDate, 0); }
      hide TruncateToHour;
      var i :| 0 <= i < |order| && order[i] == t.usage[k].agentId;
      assert taken[i].key == KeyOf(t.usage[k]);
    }
  }

  lemma {:induction false} AfterKeeps(jobs: seq<Job>)
    requires After(jobs).Some?
    ensures Inv(After(jobs).value)
    decreases |jobs|
  {
    if jobs != [] {
      hide Inv;
      AfterKeeps(jobs[..|jobs| - 1]);
      StepKeeps(After(jobs[..|jobs| - 1]).value, jobs[|jobs| - 1]);
    } else {
      assert Inv(EMPTY);
    }
  }

  lemma StepKeeps(t: Tables, job: Job)
    requires Inv(t) && AfterOne(t, job).Some?
    ensures Inv(AfterOne(t, job).value)
  {
    hide Inv;
    match job
    case Arrive(r) => InsertKeeps(t, r);
    case RunJob(referenceDate, order, upTo) =>
      TakenRows(t, referenceDate, order, upTo);
      WriteAllKeeps(t, |t.usage|, Taken(t, referenceDate, order, upTo));
  }

  /** A record of the table was there before the job, or is what the job brought. */
  lemma OldOrNew(t: Tables, job: Job, k: nat)
    requires AfterOne(t, job).Some? && k < |AfterOne(t, job).value.usage|
    ensures var next := AfterOne(t, job).value;
            if k < |t.usage| then next.usage[k] == t.usage[k] else job == Arrive(next.usage[k])
  {
    if job.RunJob? {
      WriteAllRows(t, |t.usage|, Taken(t, job.referenceDate, job.order, job.upTo));
    }
  }

  lemma CompletedOneMore(jobs: seq<Job>, i: nat, hour: int)
    requires i < |jobs|
    ensures CompletedAfter(jobs, i, hour) <==>
            i < |jobs| - 1 && (Completes(jobs[|jobs| - 1], hour) || CompletedAfter(jobs[..|jobs| - 1], i, hour))
  {
    hide Completes;
    var shorter := jobs[..|jobs| - 1];
    assert forall j :: 0 <= j < |shorter| ==> shorter[j] == jobs[j];
  }

  /** Record `k` arrived as some job, and a complete run of its hour after that job covers it. */
  lemma {:induction false} ArrivalOf(jobs: seq<Job>, k: nat) returns (i: nat)
    requires After(jobs).Some? && k < |After(jobs).value.usage|
    ensures i < |jobs| && jobs[i] == Arrive(After(jobs).value.usage[k])
    ensures CompletedAfter(jobs, i, TruncateToHour(After(jobs).value.usage[k].createdAt)) ==>
              Covered(After(jobs).value, k)
    decreases |jobs|
  {
    assert jobs != [];
    hide TruncateToHour, Covered, Completes, CompletedAfter, Inv, AfterOne;
    var n := |jobs| - 1;
    var shorter, t := jobs[..n], After(jobs[..n]).value;
    var hour := TruncateToHour(After(jobs).value.usage[k].createdAt);
    OldOrNew(t, jobs[n], k);
    if k < |t.usage| {
      AfterKeeps(shorter);
      OneKeeps(t, jobs[n], k);
      i := ArrivalOf(shorter, k);
    } else {
      i := n;
    }
    CompletedOneMore(jobs, i, hour);
  }

  /**
   * After rollups in any order, repeated or cut off anywhere and run again: if each
   * hour's last complete run came after the hour's last record, the rollups of any
   * agents add up to their raw records, in every metric.
   */
  lemma RollupsConserve(jobs: seq<Job>, agents: set<Text>)
    requires After(jobs).Some? && Served(jobs)
    ensures RolledTotal(After(jobs).value.rows, agents) == RawTotal(After(jobs).value.usage, agents)
  {
    hide Covered, Completes, CompletedAfter, After;
    var t := After(jobs).value;
    AfterKeeps(jobs);
    forall k | 0 <= k < |t.usage| ensures Covered(t, k) {
      var i := ArrivalOf(jobs, k);
    }
    ConservedIff(t, agents);
  }

  // ---------- Runs that overlap ----------

  /** A run that has read the table, for one hour, and may still have rows to write. */
  datatype Pass = Pass(readAt: nat, hour: int, todo: seq<Row>)

  datatype State = State(tables: Tables, passes: map<nat, Pass>)

  datatype Event = Insert(record: Record) | Read(pass: nat, referenceDate: int, order: seq<Text>) | Write(pass: nat)

  /** None when the event cannot happen. A pass that is never continued has crashed. */
  function Step(s: State, e: Event): Option<State> {
    match e
    case Insert(r) => Some(s.(tables := s.tables.(usage := s.tables.usage + [r])))
    case Read(pass, referenceDate, order) =>
      if pass in s.passes || !GroupOrder(s.tables.usage, TruncateToHour(referenceDate), order) then None
      else
        var hour := TruncateToHour(referenceDate);
        var aggregates := Aggregates(s.tables.usage, hour, order);
        Some(s.(passes := s.passes[pass := Pass(|s.tables.usage|, hour, aggregates)]))
    case Write(pass) =>
      if pass !in s.passes || s.passes[pass].todo == [] then None
      else
        var p := s.passes[pass];
        Some(State(WriteRow(s.tables, p.readAt, p.todo[0]), s.passes[pass := p.(todo := p.todo[1..])]))
  }

  predicate StateInv(s: State) {
    && Inv(s.tables)
    && (forall pass :: pass in s.passes ==> AllSound(s.tables.usage, s.passes[pass].readAt, s.passes[pass].todo))
    && (forall pass :: pass in s.passes ==> Accounted(s.tables, s.passes[pass]))
  }

  predicate StillToWrite(todo: seq<Row>, key: Key) { exists i :: 0 <= i < |todo| && todo[i].key == key }

  /** Each record of its hour that the pass has read is still to be written by it or has a row. */
  predicate Accounted(t: Tables, p: Pass) {
    p.readAt <= |t.usage| &&
    forall k :: 0 <= k < p.readAt && TruncateToHour(t.usage[k].createdAt) == p.hour ==>
      StillToWrite(p.todo, KeyOf(t.usage[k])) || KeyOf(t.usage[k]) in t.written
  }

  lemma InsertEventKeeps(s: State, r: Record)
    requires StateInv(s)
    ensures StateInv(Step(s, Insert(r)).value)
  {
    hide Inv, TruncateToHour;
    InsertKeeps(s.tables, r);
    forall pass, i | pass in s.passes && 0 <= i < |s.passes[pass].todo|
      ensures Sound(s.tables.usage + [r], s.passes[pass].readAt, s.passes[pass].todo[i])
    {
      var p := s.passes[pass];
      assert Sound(s.tables.usage, p.readAt, p.todo[i]);
      assert (s.tables.usage + [r])[..p.readAt] == s.tables.usage[..p.readAt];
    }
  }

  lemma ReadAccounts(t: Tables, referenceDate: int, order: seq<Text>)
    requires GroupOrder(t.usage, TruncateToHour(referenceDate), order)
    ensures var hour := TruncateToHour(referenceDate);
            Accounted(t, Pass(|t.usage|, hour, Aggregates(t.usage, hour, order)))
  {
    var hour := TruncateToHour(referenceDate);
    var aggregates := Aggregates(t.usage, hour, order);
    forall k | 0 <= k < |t.usage| && TruncateToHour(t.usage[k].createdAt) == hour
      ensures StillToWrite(aggregates, KeyOf(t.usage[k]))
    {
      HoursTile(t.usage[k].createdAt, hour) by { HoursTile(referenceDate, 0); }
      hide TruncateToHour, SumGroup;
      var i :| 0 <= i < |order| && order[i] == t.usage[k].agentId;
      assert aggregates[i].key == KeyOf(t.usage[k]);
    }
  }

  lemma ReadEventKeeps(s: State, e: Event)
    requires StateInv(s) && e.Read? && Step(s, e).Some?
    ensures StateInv(Step(s, e).value)
  {
    hide Inv, TruncateToHour, GroupOrder, Accounted;
    TakenRows(s.tables, e.referenceDate, e.order, |e.order|);
    ReadAccounts(s.tables, e.referenceDate, e.order);
  }

  /** Writing a row accounts for its key. */
  lemma WriteAccounts(t: Tables, p: Pass, readAt: nat, row: Row, rest: seq<Row>)
    requires Accounted(t, p) && (p.todo == rest || p.todo == [row] + rest)
    ensures Accounted(WriteRow(t, readAt, row), p.(todo := rest))
  {
    hide TruncateToHour, KeyOf, Upsert;
    var next := WriteRow(t, readAt, row);
    forall k | 0 <= k < p.readAt && TruncateToHour(t.usage[k].createdAt) == p.hour
      ensures StillToWrite(rest, KeyOf(t.usage[k])) || KeyOf(t.usage[k]) in next.written
    {
      if i :| 0 <= i < |p.todo| && p.todo[i].key == KeyOf(t.usage[k]) {
        if p.todo == [row] + rest && i > 0 {
          assert rest[i - 1] == p.todo[i];
        }
      }
    }
  }

  lemma WriteEventKeeps(s: State, e: Event)
    requires StateInv(s) && e.Write? && Step(s, e).Some?
    ensures StateInv(Step(s, e).value)
  {
    hide Inv, Sound, Accounted;
    var p, t := s.passes[e.pass], Step(s, e).value;
    assert Sound(s.tables.usage, p.readAt, p.todo[0]);
    WriteKeeps(s.tables, p.readAt, p.todo[0]);
    assert p.todo == [p.todo[0]] + p.todo[1..];
    forall pass | pass in t.passes ensures Accounted(t.tables, t.passes[pass]) {
      WriteAccounts(s.tables, s.passes[pass], p.readAt, p.todo[0], t.passes[pass].todo);
    }
  }

  lemma EventKeeps(s: State, e: Event)
    requires StateInv(s) && Step(s, e).Some?
    ensures StateInv(Step(s, e).value)
  {
    hide StateInv;
    match e
    case Insert(r) => InsertEventKeeps(s, r);
    case Read(_, _, _) => ReadEventKeeps(s, e);
    case Write(_) => WriteEventKeeps(s, e);
  }

  function RunEvents(s: State, run: seq<Event>): Option<State>
    decreases |run|
  {
    if run == [] then Some(s)
    else match Step(s, run[0]) case None => None case Some(next) => RunEvents(next, run[1..])
  }

  lemma {:induction false} EventsKeep(s: State, run: seq<Event>)
    requires StateInv(s) && RunEvents(s, run).Some?
    ensures StateInv(RunEvents(s, run).value)
    decreases |run|
  {
    if run != [] {
      hide StateInv, Step;
      EventKeeps(s, run[0]);
      EventsKeep(Step(s, run[0]).value, run[1..]);
    }
  }

  const INITIAL := State(EMPTY, map[])

  /**
   * With any number of overlapping runs and crashes, rollup rows stay unique per
   * agent and hour, the rollups of any agents hold exactly their covered records,
   * and so they agree with the raw records, in every metric, exactly when every
   * record of those agents was read by the run that last wrote its key.
   */
  lemma OverlappingRunsConserve(run: seq<Event>, agents: set<Text>)
    requires RunEvents(INITIAL, run).Some?
    ensures var t := RunEvents(INITIAL, run).value.tables;
            && UniqueRows(t.rows)
            && RolledTotal(t.rows, agents) == RawTotal(CoveredPart(t.usage, t.written), agents)
            && RolledTotal(t.rows, agents).requestCount <= RawTotal(t.usage, agents).requestCount
            && (RolledTotal(t.rows, agents) == RawTotal(t.usage, agents) <==> AllCovered(t, agents))
  {
    EventsKeep(INITIAL, run);
    hide RunEvents;
    var t := RunEvents(INITIAL, run).value.tables;
    RollupsHoldCovered(t, agents);
    ConservedIff(t, agents);
  }

  /** Two runs that overlap: the one that read first writes last, and the second record is lost from the rollup. */
  function StaleWrite(r: Record): seq<Event> {
    [Insert(r), Read(0, r.createdAt, [r.agentId]), Insert(r), Read(1, r.createdAt, [r.agentId]), Write(1), Write(0)]
  }

  lemma GroupOfOne(r: Record, usage: seq<Record>)
    requires usage == [r] || usage == [r, r]
    ensures GroupOrder(usage, TruncateToHour(r.createdAt), [r.agentId])
    ensures Aggregates(usage, TruncateToHour(r.createdAt), [r.agentId]) == [Row(KeyOf(r), SumKey(usage, KeyOf(r)))]
    ensures SumKey(usage, KeyOf(r)) == RawTotal(usage, {r.agentId})
    ensures RawTotal(usage, {r.agentId}).requestCount == |usage|
  {
    HoursTile(r.createdAt, TruncateToHour(r.createdAt)) by { HoursTile(r.createdAt, 0); }
    GroupIsKey(usage, r.agentId, TruncateToHour(r.createdAt));
    assert usage[..|usage| - 1] == if |usage| == 1 then [] else [r];
    assert [r][..0] == [];
    hide TruncateToHour;
    assert usage[0].agentId == r.agentId && InHour(usage[0], TruncateToHour(r.createdAt));
  }

  lemma RunFirst(s: State, e: Event, rest: seq<Event>)
    requires Step(s, e).Some?
    ensures RunEvents(s, [e] + rest) == RunEvents(Step(s, e).value, rest)
  {
    hide Step;
    assert ([e] + rest)[1..] == rest;
  }

  /** The run up to both reads. */
  lemma BothRead(r: Record, stale: Row, full: Row)
    requires stale == Row(KeyOf(r), SumKey([r], KeyOf(r))) && full == Row(KeyOf(r), SumKey([r, r], KeyOf(r)))
    ensures var hour := TruncateToHour(r.createdAt);
            var s := State(Tables([r, r], [], map[]), map[0 := Pass(1, hour, [stale]), 1 := Pass(2, hour, [full])]);
            RunEvents(INITIAL, StaleWrite(r)) == RunEvents(s, [Write(1), Write(0)])
  {
    GroupOfOne(r, [r]);
    GroupOfOne(r, [r, r]);
    hide TruncateToHour, GroupOrder, Aggregates, SumKey, RawTotal, RunEvents;
    var writes, hour := [Write(1), Write(0)], TruncateToHour(r.createdAt);
    var s1 := State(Tables([r], [], map[]), map[]);
    assert [] + [r] == [r] && [r] + [r] == [r, r];
    assert Step(INITIAL, Insert(r)) == Some(s1);
    var s2 := s1.(passes := map[0 := Pass(1, hour, [stale])]);
    assert Step(s1, Read(0, r.createdAt, [r.agentId])) == Some(s2);
    var s3 := s2.(tables := Tables([r, r], [], map[]));
    assert Step(s2, Insert(r)) == Some(s3);
    var s4 := s3.(passes := map[0 := Pass(1, hour, [stale]), 1 := Pass(2, hour, [full])]);
    assert Step(s3, Read(1, r.createdAt, [r.agentId])) == Some(s4);
    var last := [Read(1, r.createdAt, [r.agentId])] + writes;
    RunFirst(s3, Read(1, r.createdAt, [r.agentId]), writes);
    RunFirst(s2, Insert(r), last);
    RunFirst(s1, Read(0, r.createdAt, [r.agentId]), [Insert(r)] + last);
    RunFirst(INITIAL, Insert(r), [Read(0, r.createdAt, [r.agentId])] + ([Insert(r)] + last));
    assert StaleWrite(r) == [Insert(r)] + ([Read(0, r.createdAt, [r.agentId])] + ([Insert(r)] + last));
  }

  lemma BothWrite(r: Record, stale: Row, full: Row)
    requires stale.key == full.key
    ensures var hour := TruncateToHour(r.createdAt);
            var s := State(Tables([r, r], [], map[]), map[0 := Pass(1, hour, [stale]), 1 := Pass(2, hour, [full])]);
            var end := RunEvents(s, [Write(1), Write(0)]);
            end.Some? && end.value.tables.rows == [stale] && end.value.tables.usage == [r, r]
  {
    hide RunEvents, TruncateToHour;
    var hour := TruncateToHour(r.createdAt);
    var s := State(Tables([r, r], [], map[]), map[0 := Pass(1, hour, [stale]), 1 := Pass(2, hour, [full])]);
    var s1 := Step(s, Write(1)).value;
    assert Upsert([], full) == [full] && Upsert([full], stale) == [stale];
    RunFirst(s, Write(1), [Write(0)]);
    RunFirst(s1, Write(0), []);
    NoEvents(Step(s1, Write(0)).value);
    assert [Write(0)] + [] == [Write(0)] && [Write(1)] + [Write(0)] == [Write(1), Write(0)];
  }

  lemma NoEvents(s: State)
    ensures RunEvents(s, []) == Some(s)
  {
  }

  /** A witness: both runs complete and one reads after the last record, and still the rollup is short of a record. */
  lemma OverlapCanLose(r: Record)
    ensures RunEvents(INITIAL, StaleWrite(r)).Some?
    ensures var t := RunEvents(INITIAL, StaleWrite(r)).value.tables;
            RolledTotal(t.rows, {r.agentId}).requestCount == 1 && RawTotal(t.usage, {r.agentId}).requestCount == 2
  {
    GroupOfOne(r, [r]);
    GroupOfOne(r, [r, r]);
    hide SumKey, RawTotal, RunEvents, StaleWrite;
    var stale, full := Row(KeyOf(r), SumKey([r], KeyOf(r))), Row(KeyOf(r), SumKey([r, r], KeyOf(r)));
    BothRead(r, stale, full);
    BothWrite(r, stale, full);
    assert [stale][1..] == [];
  }
}
