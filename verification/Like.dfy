/** `escapeLike` of src/modules/catalog/catalog.service.ts and LIKE matching (PostgreSQL manual, section 9.7.1). */
module Like {
  import opened Wrappers

  predicate IsSpecial(c: char) { c == '\\' || c == '%' || c == '_' }

  function EscapeLike(value: string): string {
    if value == [] then []
    else (if IsSpecial(value[0]) then ['\\', value[0]] else [value[0]]) + EscapeLike(value[1..])
  }

  /** The parameter of the ILIKE query. */
  function ContainsPattern(term: string): string { "%" + EscapeLike(term) + "%" }

  datatype LikeTerm = Exactly(c: char) | AnyChar | AnyString

  /** None is the error "LIKE pattern must not end with escape character". */
  function ReadLike(t: string): Option<seq<LikeTerm>>
    decreases |t|
  {
    if t == [] then Some([])
    else if t[0] == '\\' then if |t| < 2 then None else Prepend(Exactly(t[1]), ReadLike(t[2..]))
    else if t[0] == '%' then Prepend(AnyString, ReadLike(t[1..]))
    else if t[0] == '_' then Prepend(AnyChar, ReadLike(t[1..]))
    else Prepend(Exactly(t[0]), ReadLike(t[1..]))
  }

  function Prepend(term: LikeTerm, rest: Option<seq<LikeTerm>>): Option<seq<LikeTerm>> {
    match rest case None => None case Some(terms) => Some([term] + terms)
  }

  /** The whole value matches; `fold` is the identity for LIKE and the case folding of one character for ILIKE. */
  predicate LikeMatches(terms: seq<LikeTerm>, v: string, fold: char -> char)
    decreases |terms|
  {
    if terms == [] then v == []
    else
      match terms[0]
      case Exactly(c) => v != [] && fold(v[0]) == fold(c) && LikeMatches(terms[1..], v[1..], fold)
      case AnyChar => v != [] && LikeMatches(terms[1..], v[1..], fold)
      case AnyString => exists n :: 0 <= n <= |v| && LikeMatches(terms[1..], v[n..], fold)
  }

  function ILike(v: string, pattern: string, fold: char -> char): Option<bool> {
    match ReadLike(pattern) case None => None case Some(terms) => Some(LikeMatches(terms, v, fold))
  }

  // ---------- The plain meaning ----------

  /** `term` stands in `v` at `n`, up to folding. */
  predicate OccursAt(term: string, v: string, n: nat, fold: char -> char) {
    n + |term| <= |v| && forall k :: 0 <= k < |term| ==> fold(v[n + k]) == fold(term[k])
  }

  predicate Occurs(term: string, v: string, fold: char -> char) {
    exists n :: 0 <= n <= |v| && OccursAt(term, v, n, fold)
  }

  function Unescape(t: string): string
    decreases |t|
  {
    if t == [] then [] else if t[0] == '\\' && |t| >= 2 then [t[1]] + Unescape(t[2..]) else [t[0]] + Unescape(t[1..])
  }

  function Literals(term: string): seq<LikeTerm> { seq(|term|, i requires 0 <= i < |term| => Exactly(term[i])) }

  // ---------- Agreement ----------

  lemma {:induction false} UnescapeEscape(term: string)
    ensures Unescape(EscapeLike(term)) == term
  {
    if term != [] {
      UnescapeEscape(term[1..]);
      var tail := EscapeLike(term[1..]);
      assert (['\\', term[0]] + tail)[2..] == tail;
      assert ([term[0]] + tail)[1..] == tail;
    }
  }

  lemma ReadOne(c: char, tail: string)
    ensures ReadLike((if IsSpecial(c) then ['\\', c] else [c]) + tail) == Prepend(Exactly(c), ReadLike(tail))
    ensures ReadLike("%" + tail) == Prepend(AnyString, ReadLike(tail))
  {
    assert (['\\', c] + tail)[2..] == tail;
    assert ([c] + tail)[1..] == tail;
    assert ("%" + tail)[1..] == tail;
  }

  lemma EscapeStep(term: string)
    requires term != []
    ensures EscapeLike(term) == (if IsSpecial(term[0]) then ['\\', term[0]] else [term[0]]) + EscapeLike(term[1..])
  {
  }

  lemma LiteralsStep(term: string)
    requires term != []
    ensures Literals(term) == [Exactly(term[0])] + Literals(term[1..])
  {
  }

  lemma {:induction false} ReadEscaped(term: string)
    ensures ReadLike(EscapeLike(term) + "%") == Some(Literals(term) + [AnyString])
  {
    hide ReadLike;
    if term == [] {
      ReadOne('a', "");
      ReadNothing();
      assert EscapeLike(term) + "%" == "%" + "";
      assert Literals(term) + [AnyString] == [AnyString] + [];
    } else {
      var tail := EscapeLike(term[1..]) + "%";
      ReadEscaped(term[1..]);
      ReadOne(term[0], tail);
      EscapeStep(term);
      LiteralsStep(term);
      hide EscapeLike, Literals;
      var head := if IsSpecial(term[0]) then ['\\', term[0]] else [term[0]];
      assert (head + EscapeLike(term[1..])) + "%" == head + tail;
      var literal, literals := [Exactly(term[0])], Literals(term[1..]);
      assert (literal + literals) + [AnyString] == literal + (literals + [AnyString]);
    }
  }

  lemma ReadNothing()
    ensures ReadLike("") == Some([])
  {
  }

  /** The pattern is always well formed and reads as the term's own characters between two any-runs. */
  lemma ContainsPatternReads(term: string)
    ensures ReadLike(ContainsPattern(term)) == Some([AnyString] + Literals(term) + [AnyString])
  {
    hide ReadLike;
    ReadEscaped(term);
    ReadOne('a', EscapeLike(term) + "%");
    assert ContainsPattern(term) == "%" + (EscapeLike(term) + "%");
    assert [AnyString] + Literals(term) + [AnyString] == [AnyString] + (Literals(term) + [AnyString]);
  }

  lemma {:induction false} LiteralsMatchAt(term: string, v: string, fold: char -> char)
    ensures LikeMatches(Literals(term) + [AnyString], v, fold) <==> OccursAt(term, v, 0, fold)
    decreases |term|
  {
    var terms := Literals(term) + [AnyString];
    if term == [] {
      assert terms == [AnyString] && terms[1..] == [];
      assert v[|v|..] == [];
      assert LikeMatches([], v[|v|..], fold);
    } else {
      assert terms[0] == Exactly(term[0]) && terms[1..] == Literals(term[1..]) + [AnyString];
      if v != [] {
        LiteralsMatchAt(term[1..], v[1..], fold);
        OccursStep(term, v, fold);
      }
    }
  }

  lemma OccursStep(term: string, v: string, fold: char -> char)
    requires term != [] && v != []
    ensures OccursAt(term, v, 0, fold) <==> fold(v[0]) == fold(term[0]) && OccursAt(term[1..], v[1..], 0, fold)
  {
    if fold(v[0]) == fold(term[0]) && OccursAt(term[1..], v[1..], 0, fold) {
      forall k | 0 <= k < |term| ensures fold(v[k]) == fold(term[k]) {
        if k > 0 {
          assert v[k] == v[1..][k - 1] && term[k] == term[1..][k - 1];
        }
      }
    }
    if OccursAt(term, v, 0, fold) {
      forall k | 0 <= k < |term[1..]| ensures fold(v[1..][0 + k]) == fold(term[1..][k]) {
        assert v[1..][k] == v[0 + (k + 1)] && term[1..][k] == term[k + 1];
      }
    }
  }

  /** A search for a term finds exactly the values that contain it. */
  lemma SearchFindsSubstrings(term: string, v: string, fold: char -> char)
    ensures ILike(v, ContainsPattern(term), fold) == Some(Occurs(term, v, fold))
  {
    hide LikeMatches, ReadLike;
    var inner := Literals(term) + [AnyString];
    ContainsPatternReads(term);
    assert [AnyString] + Literals(term) + [AnyString] == [AnyString] + inner;
    MatchAnyString(inner, v, fold);
    forall n | 0 <= n <= |v| ensures LikeMatches(inner, v[n..], fold) <==> OccursAt(term, v, n, fold) {
      LiteralsMatchAt(term, v[n..], fold);
      OccursShift(term, v, n, fold);
    }
  }

  lemma MatchAnyString(rest: seq<LikeTerm>, v: string, fold: char -> char)
    ensures LikeMatches([AnyString] + rest, v, fold) <==> exists n :: 0 <= n <= |v| && LikeMatches(rest, v[n..], fold)
  {
    assert ([AnyString] + rest)[1..] == rest;
  }

  lemma OccursShift(term: string, v: string, n: nat, fold: char -> char)
    requires n <= |v|
    ensures OccursAt(term, v[n..], 0, fold) <==> OccursAt(term, v, n, fold)
  {
    if OccursAt(term, v[n..], 0, fold) {
      forall k | 0 <= k < |term| ensures fold(v[n + k]) == fold(term[k]) {
        assert v[n..][0 + k] == v[n + k];
      }
    }
    if OccursAt(term, v, n, fold) {
      forall k | 0 <= k < |term| ensures fold(v[n..][0 + k]) == fold(term[k]) {
        assert v[n..][0 + k] == v[n + k];
      }
    }
  }
}
