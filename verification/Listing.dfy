/** Database listings: a filter on a table and the newest-first order. */
module Listing {
  function Filter<T>(rows: seq<T>, keep: T -> bool): (kept: seq<T>)
    ensures forall r :: r in kept ==> r in rows && keep(r)
    ensures forall r :: r in rows && keep(r) ==> r in kept
  {
    if rows == [] then []
    else if keep(rows[0]) then [rows[0]] + Filter(rows[1..], keep)
    else Filter(rows[1..], keep)
  }

  ghost predicate Descending<T>(rows: seq<T>, at: T -> int) {
    forall i, j :: 0 <= i < j < |rows| ==> at(rows[i]) >= at(rows[j])
  }

  function InsertNewest<T>(row: T, rows: seq<T>, at: T -> int): seq<T> {
    if rows == [] || at(row) >= at(rows[0]) then [row] + rows else [rows[0]] + InsertNewest(row, rows[1..], at)
  }

  /** ORDER BY createdAt DESC; rows of the same instant keep their table order. */
  function NewestFirst<T>(rows: seq<T>, at: T -> int): seq<T> {
    if rows == [] then [] else InsertNewest(rows[0], NewestFirst(rows[1..], at), at)
  }

  lemma {:induction false} InsertNewestElements<T(!new)>(row: T, rows: seq<T>, at: T -> int)
    ensures forall r :: r in InsertNewest(row, rows, at) ==> r == row || r in rows
    ensures multiset(InsertNewest(row, rows, at)) == multiset(rows) + multiset{row}
  {
    if rows != [] && at(row) < at(rows[0]) {
      InsertNewestElements(row, rows[1..], at);
      assert rows == [rows[0]] + rows[1..];
    }
  }

  lemma {:induction false} InsertNewestKeeps<T(!new)>(row: T, rows: seq<T>, at: T -> int)
    requires Descending(rows, at)
    ensures Descending(InsertNewest(row, rows, at), at)
  {
    if rows != [] && at(row) < at(rows[0]) {
      var rest := InsertNewest(row, rows[1..], at);
      InsertNewestKeeps(row, rows[1..], at);
      InsertNewestElements(row, rows[1..], at);
      forall j | 0 <= j < |rest| ensures at(rest[j]) <= at(rows[0]) {
        assert rest[j] in rest;
      }
    }
  }

  /** The order loses no row, repeats none, and puts newer rows first. */
  lemma {:induction false} NewestFirstSorts<T(!new)>(rows: seq<T>, at: T -> int)
    ensures Descending(NewestFirst(rows, at), at)
    ensures multiset(NewestFirst(rows, at)) == multiset(rows)
  {
    if rows != [] {
      NewestFirstSorts(rows[1..], at);
      InsertNewestKeeps(rows[0], NewestFirst(rows[1..], at), at);
      InsertNewestElements(rows[0], NewestFirst(rows[1..], at), at);
      assert rows == [rows[0]] + rows[1..];
    }
  }

  lemma {:induction false} FilterInsert<T(!new)>(row: T, rows: seq<T>, at: T -> int, keep: T -> bool)
    requires Descending(rows, at)
    ensures Filter(InsertNewest(row, rows, at), keep)
         == if keep(row) then InsertNewest(row, Filter(rows, keep), at) else Filter(rows, keep)
  {
    if rows == [] || at(row) >= at(rows[0]) {
      assert ([row] + rows)[1..] == rows;
      if keep(row) && Filter(rows, keep) != [] {
        assert Filter(rows, keep)[0] in rows;
      }
    } else {
      FilterInsert(row, rows[1..], at, keep);
      var rest := InsertNewest(row, rows[1..], at);
      assert ([rows[0]] + rest)[1..] == rest;
    }
  }

  /** Filtering an ordered listing gives the same rows in the same order as ordering the filtered table. */
  lemma {:induction false} FilterNewestFirst<T(!new)>(rows: seq<T>, at: T -> int, keep: T -> bool)
    ensures Filter(NewestFirst(rows, at), keep) == NewestFirst(Filter(rows, keep), at)
  {
    if rows != [] {
      FilterNewestFirst(rows[1..], at, keep);
      NewestFirstSorts(rows[1..], at);
      FilterInsert(rows[0], NewestFirst(rows[1..], at), at, keep);
    }
  }

  lemma {:induction false} FilterTwice<T(!new)>(rows: seq<T>, wide: T -> bool, narrow: T -> bool)
    requires forall r :: narrow(r) ==> wide(r)
    ensures Filter(Filter(rows, wide), narrow) == Filter(rows, narrow)
  {
    if rows != [] {
      FilterTwice(rows[1..], wide, narrow);
      if wide(rows[0]) {
        assert Filter(rows, wide)[1..] == Filter(rows[1..], wide);
      }
    }
  }

  lemma {:induction false} FilterAll<T(!new)>(rows: seq<T>, keep: T -> bool)
    ensures Filter(rows, keep) == rows <==> forall r :: r in rows ==> keep(r)
  {
    if rows != [] {
      FilterAll(rows[1..], keep);
      assert forall r :: r in rows <==> r == rows[0] || r in rows[1..];
      if !keep(rows[0]) {
        FilterShorter(rows[1..], keep);
      }
    }
  }

  lemma {:induction false} FilterShorter<T>(rows: seq<T>, keep: T -> bool)
    ensures |Filter(rows, keep)| <= |rows|
  {
    if rows != [] {
      FilterShorter(rows[1..], keep);
    }
  }

  lemma FilterStep<T>(rows: seq<T>, keep: T -> bool)
    ensures Filter(rows, keep) ==
      if rows == [] then [] else (if keep(rows[0]) then [rows[0]] else []) + Filter(rows[1..], keep)
  {
  }

  lemma {:induction false} FilterConcat<T>(a: seq<T>, b: seq<T>, keep: T -> bool)
    ensures Filter(a + b, keep) == Filter(a, keep) + Filter(b, keep)
  {
    hide Filter;
    FilterStep(a, keep);
    if a == [] {
      assert a + b == b;
    } else {
      FilterStep(a + b, keep);
      FilterConcat(a[1..], b, keep);
      assert (a + b)[1..] == a[1..] + b;
      Associative(if keep(a[0]) then [a[0]] else [], Filter(a[1..], keep), Filter(b, keep));
    }
  }

  lemma Associative<T>(a: seq<T>, b: seq<T>, c: seq<T>)
    ensures a + (b + c) == (a + b) + c
  {
  }
}
