/** `matchWildcard` of src/modules/policy/policy-evaluator.ts: patterns compiled to regular-expression text. */
module Wildcard {
  import opened Wrappers
  import opened Utf16

  const STAR: Unit := 0x2A
  const DOT: Unit := 0x2E
  const CARET: Unit := 0x5E
  const DOLLAR: Unit := 0x24
  const BACKSLASH: Unit := 0x5C

  // ---------- The generated text ----------

  /** The character class of the first replacement: . + ? ^ $ { } ( ) | [ ] \ */
  predicate IsEscaped(c: Unit) {
    c == DOT || c == 0x2B || c == 0x3F || c == CARET || c == DOLLAR || c == 0x7B || c == 0x7D
    || c == 0x28 || c == 0x29 || c == 0x7C || c == 0x5B || c == 0x5D || c == BACKSLASH
  }

  function EscapeSyntax(p: Text): Text {
    if p == [] then [] else (if IsEscaped(p[0]) then [BACKSLASH, p[0]] else [p[0]]) + EscapeSyntax(p[1..])
  }

  function ExpandStars(t: Text): Text {
    if t == [] then [] else (if t[0] == STAR then [DOT, STAR] else [t[0]]) + ExpandStars(t[1..])
  }

  function RegexSource(p: Text): Text { [CARET] + ExpandStars(EscapeSyntax(p)) + [DOLLAR] }

  // ---------- Regular expressions (ECMA-262 section 22.2) ----------

  datatype Atom = Literal(c: Unit) | AnyUnit

  datatype Term = InputStart | InputEnd | One(atom: Atom) | Star(atom: Atom)

  predicate IsSyntaxCharacter(c: Unit) { IsEscaped(c) || c == STAR }

  /** The one or two units of an atom, and how many they are. */
  function ReadAtom(t: Text): Option<(Atom, nat)>
    requires t != []
  {
    if t[0] == DOT then Some((AnyUnit, 1))
    else if t[0] == BACKSLASH then
      if |t| >= 2 && IsSyntaxCharacter(t[1]) then Some((Literal(t[1]), 2)) else None
    else if IsSyntaxCharacter(t[0]) then None
    else Some((Literal(t[0]), 1))
  }

  /**
   * Reads anchors, literals, escaped syntax characters, `.` and `*`. Text that uses
   * anything else of the grammar (groups, classes, alternatives, other quantifiers)
   * is refused.
   */
  function ReadRegex(t: Text): Option<seq<Term>>
    decreases |t|
  {
    if t == [] then Some([])
    else if t[0] == CARET then Prepend(InputStart, ReadRegex(t[1..]))
    else if t[0] == DOLLAR then Prepend(InputEnd, ReadRegex(t[1..]))
    else
      match ReadAtom(t)
      case None => None
      case Some((atom, n)) =>
        if n < |t| && t[n] == STAR then Prepend(Star(atom), ReadRegex(t[n + 1..]))
        else if n <= |t| then Prepend(One(atom), ReadRegex(t[n..]))
        else None
  }

  function Prepend(term: Term, rest: Option<seq<Term>>): Option<seq<Term>> {
    match rest case None => None case Some(terms) => Some([term] + terms)
  }

  predicate IsLineTerminator(c: Unit) { c == 0x0A || c == 0x0D || c == 0x2028 || c == 0x2029 }

  predicate MatchesAtom(atom: Atom, c: Unit) {
    match atom case Literal(d) => c == d case AnyUnit => !IsLineTerminator(c)
  }

  predicate MatchesRun(atom: Atom, v: Text) { forall i :: 0 <= i < |v| ==> MatchesAtom(atom, v[i]) }

  /** The terms match `v` from `i` on, without the multiline flag. */
  predicate MatchFrom(terms: seq<Term>, v: Text, i: nat)
    requires i <= |v|
    decreases |terms|
  {
    if terms == [] then true
    else
      match terms[0]
      case InputStart => i == 0 && MatchFrom(terms[1..], v, i)
      case InputEnd => i == |v| && MatchFrom(terms[1..], v, i)
      case One(atom) => i < |v| && MatchesAtom(atom, v[i]) && MatchFrom(terms[1..], v, i + 1)
      case Star(atom) => exists k :: i <= k <= |v| && MatchesRun(atom, v[i..k]) && MatchFrom(terms[1..], v, k)
  }

  /** `RegExp.prototype.test`: a match may start anywhere. */
  predicate Test(terms: seq<Term>, v: Text) { exists i :: 0 <= i <= |v| && MatchFrom(terms, v, i) }

  /** The outer None is the SyntaxError of the RegExp constructor. */
  function MatchWildcard(pattern: Text, value: Text): Option<bool> {
    if pattern == [STAR] then Some(true)
    else
      match ReadRegex(RegexSource(pattern))
      case None => None
      case Some(terms) => Some(Test(terms, value))
  }

  // ---------- The plain meaning ----------

  predicate FitsPiece(c: Unit, piece: Text) {
    if c == STAR then MatchesRun(AnyUnit, piece) else piece == [c]
  }

  function Joined(pieces: seq<Text>): Text {
    if pieces == [] then [] else pieces[0] + Joined(pieces[1..])
  }

  /** The value is cut into one piece for each pattern unit: itself, or for `*` any run on one line. */
  ghost predicate Splits(p: Text, v: Text) {
    exists pieces: seq<Text> :: FitsPieces(p, pieces) && Joined(pieces) == v
  }

  ghost predicate FitsPieces(p: Text, pieces: seq<Text>) {
    |pieces| == |p| && forall k :: 0 <= k < |p| ==> FitsPiece(p[k], pieces[k])
  }

  // ---------- Reading the generated text ----------

  function PatternTerms(p: Text): seq<Term> {
    if p == [] then []
    else [if p[0] == STAR then Star(AnyUnit) else One(Literal(p[0]))] + PatternTerms(p[1..])
  }

  lemma ExpandOne(c: Unit, t: Text)
    ensures ExpandStars([c] + t) == (if c == STAR then [DOT, STAR] else [c]) + ExpandStars(t)
  {
    assert ([c] + t)[1..] == t;
  }

  lemma ExpandEscaped(c: Unit, t: Text)
    requires IsEscaped(c)
    ensures ExpandStars([BACKSLASH, c] + t) == [BACKSLASH, c] + ExpandStars(t)
  {
    assert [BACKSLASH, c] + t == [BACKSLASH] + ([c] + t);
    hide ExpandStars;
    ExpandOne(c, t);
    ExpandOne(BACKSLASH, [c] + t);
  }

  lemma ExpandStep(p: Text)
    requires p != []
    ensures ExpandStars(EscapeSyntax(p)) ==
      (if p[0] == STAR then [DOT, STAR] else if IsEscaped(p[0]) then [BACKSLASH, p[0]] else [p[0]])
      + ExpandStars(EscapeSyntax(p[1..]))
  {
    hide ExpandStars;
    if IsEscaped(p[0]) {
      ExpandEscaped(p[0], EscapeSyntax(p[1..]));
    } else {
      ExpandOne(p[0], EscapeSyntax(p[1..]));
    }
  }

  lemma NeverStartsWithStar(p: Text)
    ensures ExpandStars(EscapeSyntax(p)) == [] || ExpandStars(EscapeSyntax(p))[0] != STAR
  {
    if p != [] {
      ExpandStep(p);
    }
  }

  lemma ReadUnit(c: Unit, tail: Text)
    requires tail == [] || tail[0] != STAR
    ensures c == STAR ==> ReadRegex([DOT, STAR] + tail) == Prepend(Star(AnyUnit), ReadRegex(tail))
    ensures IsEscaped(c) ==> ReadRegex([BACKSLASH, c] + tail) == Prepend(One(Literal(c)), ReadRegex(tail))
    ensures c != STAR && !IsEscaped(c) ==> ReadRegex([c] + tail) == Prepend(One(Literal(c)), ReadRegex(tail))
  {
    assert ([DOT, STAR] + tail)[2..] == tail;
    assert ([BACKSLASH, c] + tail)[2..] == tail;
    assert ([c] + tail)[1..] == tail;
  }

  lemma {:induction false} ReadPattern(p: Text)
    ensures ReadRegex(ExpandStars(EscapeSyntax(p)) + [DOLLAR]) == Some(PatternTerms(p) + [InputEnd])
  {
    hide ReadRegex;
    var t := ExpandStars(EscapeSyntax(p)) + [DOLLAR];
    if p == [] {
      assert t == [DOLLAR] && PatternTerms(p) + [InputEnd] == [InputEnd];
      ReadEnd();
    } else {
      var tail := ExpandStars(EscapeSyntax(p[1..])) + [DOLLAR];
      ExpandStep(p);
      NeverStartsWithStar(p[1..]);
      ReadPattern(p[1..]);
      ReadUnit(p[0], tail);
      assert t == (if p[0] == STAR then [DOT, STAR] else if IsEscaped(p[0]) then [BACKSLASH, p[0]] else [p[0]]) + tail;
      assert PatternTerms(p) + [InputEnd] == [PatternTerms(p)[0]] + (PatternTerms(p[1..]) + [InputEnd]);
    }
  }

  lemma ReadEnd()
    ensures ReadRegex([DOLLAR]) == Some([InputEnd])
  {
    assert [DOLLAR][1..] == [];
    assert [InputEnd] + [] == [InputEnd];
  }

  /** The text reads back as exactly the literals and any-runs of the pattern, between the anchors. */
  lemma RegexSourceReads(p: Text)
    ensures ReadRegex(RegexSource(p)) == Some([InputStart] + PatternTerms(p) + [InputEnd])
  {
    var t := ExpandStars(EscapeSyntax(p)) + [DOLLAR];
    ReadPattern(p);
    ReadStart(t);
    assert RegexSource(p) == [CARET] + t;
    assert [InputStart] + PatternTerms(p) + [InputEnd] == [InputStart] + (PatternTerms(p) + [InputEnd]);
  }

  lemma ReadStart(t: Text)
    ensures ReadRegex([CARET] + t) == Prepend(InputStart, ReadRegex(t))
  {
    assert ([CARET] + t)[1..] == t;
  }

  // ---------- Matching is splitting ----------

  lemma SplitsEmpty(v: Text)
    ensures Splits([], v) <==> v == []
  {
    if v == [] {
      assert FitsPieces([], []) && Joined([]) == v;
    }
  }

  lemma SplitsStep(p: Text, v: Text)
    requires p != []
    ensures Splits(p, v) <==>
      exists n :: 0 <= n <= |v| && FitsPiece(p[0], v[..n]) && Splits(p[1..], v[n..])
  {
    if Splits(p, v) {
      var pieces :| FitsPieces(p, pieces) && Joined(pieces) == v;
      var n := |pieces[0]|;
      assert v[..n] == pieces[0] && v[n..] == Joined(pieces[1..]);
      assert FitsPieces(p[1..], pieces[1..]);
    }
    if n :| 0 <= n <= |v| && FitsPiece(p[0], v[..n]) && Splits(p[1..], v[n..]) {
      var rest :| FitsPieces(p[1..], rest) && Joined(rest) == v[n..];
      var pieces := [v[..n]] + rest;
      assert pieces[1..] == rest;
      assert FitsPieces(p, pieces) && Joined(pieces) == v;
    }
  }

  lemma {:induction false} MatchIsSplit(p: Text, v: Text, i: nat)
    requires i <= |v|
    ensures MatchFrom(PatternTerms(p) + [InputEnd], v, i) <==> Splits(p, v[i..])
    decreases |p|
  {
    hide MatchFrom, Splits;
    var terms := PatternTerms(p) + [InputEnd];
    if p == [] {
      assert terms == [InputEnd];
      MatchEnd(v, i);
      SplitsEmpty(v[i..]);
    } else {
      var rest := PatternTerms(p[1..]) + [InputEnd];
      assert terms == [if p[0] == STAR then Star(AnyUnit) else One(Literal(p[0]))] + rest;
      SplitsStep(p, v[i..]);
      forall k | i <= k <= |v| ensures MatchFrom(rest, v, k) <==> Splits(p[1..], v[k..]) {
        MatchIsSplit(p[1..], v, k);
      }
      if p[0] == STAR {
        MatchStar(rest, v, i);
        StarStep(p[1..], v, i, rest);
      } else {
        MatchLiteral(p[0], rest, v, i);
        LiteralStep(p, v, i, rest);
      }
    }
  }

  lemma MatchEnd(v: Text, i: nat)
    requires i <= |v|
    ensures MatchFrom([InputEnd], v, i) <==> i == |v|
  {
    assert [InputEnd][1..] == [];
  }

  lemma MatchStar(rest: seq<Term>, v: Text, i: nat)
    requires i <= |v|
    ensures MatchFrom([Star(AnyUnit)] + rest, v, i)
       <==> exists k :: i <= k <= |v| && MatchesRun(AnyUnit, v[i..k]) && MatchFrom(rest, v, k)
  {
    hide MatchesRun;
    assert ([Star(AnyUnit)] + rest)[1..] == rest;
  }

  lemma MatchLiteral(c: Unit, rest: seq<Term>, v: Text, i: nat)
    requires i <= |v|
    ensures MatchFrom([One(Literal(c))] + rest, v, i) <==> i < |v| && v[i] == c && MatchFrom(rest, v, i + 1)
  {
    assert ([One(Literal(c))] + rest)[1..] == rest;
  }

  lemma StarStep(q: Text, v: Text, i: nat, rest: seq<Term>)
    requires i <= |v|
    requires forall k :: i <= k <= |v| ==> (MatchFrom(rest, v, k) <==> Splits(q, v[k..]))
    ensures (exists k :: i <= k <= |v| && MatchesRun(AnyUnit, v[i..k]) && MatchFrom(rest, v, k))
       <==> (exists n :: 0 <= n <= |v[i..]| && FitsPiece(STAR, v[i..][..n]) && Splits(q, v[i..][n..]))
  {
    hide MatchFrom, Splits, MatchesRun;
    forall n | 0 <= n <= |v[i..]| ensures v[i..][..n] == v[i..i + n] && v[i..][n..] == v[i + n..] {
    }
    if k :| i <= k <= |v| && MatchesRun(AnyUnit, v[i..k]) && MatchFrom(rest, v, k) {
      var n := k - i;
      assert v[i..][..n] == v[i..k] && v[i..][n..] == v[k..];
    }
  }

  lemma LiteralStep(p: Text, v: Text, i: nat, rest: seq<Term>)
    requires i <= |v| && p != [] && p[0] != STAR
    requires forall k :: i <= k <= |v| ==> (MatchFrom(rest, v, k) <==> Splits(p[1..], v[k..]))
    ensures i < |v| && v[i] == p[0] && MatchFrom(rest, v, i + 1)
       <==> (exists n :: 0 <= n <= |v[i..]| && FitsPiece(p[0], v[i..][..n]) && Splits(p[1..], v[i..][n..]))
  {
    hide MatchFrom, Splits;
    var w := v[i..];
    if i < |v| && v[i] == p[0] && MatchFrom(rest, v, i + 1) {
      assert w[..1] == [p[0]] && w[1..] == v[i + 1..];
    }
    if n :| 0 <= n <= |w| && FitsPiece(p[0], w[..n]) && Splits(p[1..], w[n..]) {
      assert |w[..n]| == 1 && w[..n][0] == w[0] == v[i];
      assert w[1..] == v[i + 1..];
    }
  }

  /** A pattern always compiles; a value matches exactly when it splits into the pattern's pieces. */
  lemma MatchWildcardIff(p: Text, v: Text)
    ensures MatchWildcard(p, v) == Some(p == [STAR] || Splits(p, v))
  {
    if p != [STAR] {
      var terms := [InputStart] + PatternTerms(p) + [InputEnd];
      RegexSourceReads(p);
      MatchIsSplit(p, v, 0);
      assert v[0..] == v;
      assert terms[1..] == PatternTerms(p) + [InputEnd];
      assert MatchFrom(terms, v, 0) <==> MatchFrom(terms[1..], v, 0);
    }
  }

  // ---------- Patterns as the documentation uses them ----------

  lemma {:induction false} SplitsPrefix(q: Text, v: Text)
    requires STAR !in q
    ensures Splits(q + [STAR], v) <==> q <= v && MatchesRun(AnyUnit, v[|q|..])
    decreases |q|
  {
    var p := q + [STAR];
    SplitsStep(p, v);
    if q == [] {
      assert p == [STAR] && p[1..] == [];
      forall n | 0 <= n <= |v| ensures Splits([], v[n..]) <==> n == |v| {
        SplitsEmpty(v[n..]);
      }
      assert v[..|v|] == v && v[0..] == v;
    } else {
      assert p[1..] == q[1..] + [STAR];
      forall n | 0 <= n <= |v|
        ensures Splits(p[1..], v[n..]) <==> q[1..] <= v[n..] && MatchesRun(AnyUnit, v[n..][|q| - 1..])
      {
        SplitsPrefix(q[1..], v[n..]);
      }
      PrefixStep(q, v);
    }
  }

  lemma PrefixStep(q: Text, v: Text)
    requires q != [] && STAR !in q
    ensures q <= v && MatchesRun(AnyUnit, v[|q|..])
       <==> (exists n :: 0 <= n <= |v| && FitsPiece(q[0], v[..n])
               && q[1..] <= v[n..] && MatchesRun(AnyUnit, v[n..][|q| - 1..]))
  {
    if q <= v && MatchesRun(AnyUnit, v[|q|..]) {
      assert v[..1] == [q[0]] && v[1..][|q| - 1..] == v[|q|..];
    }
    if n :| 0 <= n <= |v| && FitsPiece(q[0], v[..n]) && q[1..] <= v[n..] && MatchesRun(AnyUnit, v[n..][|q| - 1..]) {
      assert |v[..n]| == 1 && v[..n][0] == v[0];
      assert v[1..][|q| - 1..] == v[|q|..];
      assert q == [q[0]] + q[1..] && v == [v[0]] + v[1..];
    }
  }

  /**
   * `prefix*` matches whatever starts with the prefix and goes on without a line
   * terminator. The rest may hold any number of `:`.
   */
  lemma PrefixPattern(q: Text, v: Text)
    requires q != [] && STAR !in q
    ensures MatchWildcard(q + [STAR], v) == Some(q <= v && MatchesRun(AnyUnit, v[|q|..]))
  {
    MatchWildcardIff(q + [STAR], v);
    SplitsPrefix(q, v);
  }

  // ---------- Single-segment wildcards ----------

  const COLON: Unit := 0x3A

  function Colons(t: Text): nat { if t == [] then 0 else (if t[0] == COLON then 1 else 0) + Colons(t[1..]) }

  predicate RunsInSegment(p: Text, pieces: seq<Text>) {
    |pieces| == |p| && forall k :: 0 <= k < |p| && p[k] == STAR ==> COLON !in pieces[k]
  }

  /** What the comment above the function promises: a star stands for a run inside one `:`-separated segment. */
  ghost predicate SegmentMatches(p: Text, v: Text) {
    if p == [STAR] then COLON !in v
    else exists pieces: seq<Text> :: FitsPieces(p, pieces) && RunsInSegment(p, pieces) && Joined(pieces) == v
  }

  lemma {:induction false} ColonsConcat(a: Text, b: Text)
    ensures Colons(a + b) == Colons(a) + Colons(b)
  {
    if a == [] {
      assert a + b == b;
    } else {
      ColonsConcat(a[1..], b);
      assert (a + b)[1..] == a[1..] + b;
    }
  }

  lemma {:induction false} NoColons(t: Text)
    ensures Colons(t) == 0 <==> COLON !in t
  {
    if t != [] {
      NoColons(t[1..]);
      assert t == [t[0]] + t[1..];
    }
  }

  /** A value has at least the colons of its pattern, and more exactly when a run of a star holds one. */
  lemma {:induction false} ColonsOfPieces(p: Text, pieces: seq<Text>)
    requires FitsPieces(p, pieces)
    ensures Colons(Joined(pieces)) >= Colons(p)
    ensures Colons(Joined(pieces)) == Colons(p) <==> RunsInSegment(p, pieces)
  {
    if p != [] {
      hide MatchesRun;
      assert forall k :: 0 <= k < |p[1..]| ==> p[1..][k] == p[k + 1] && pieces[1..][k] == pieces[k + 1];
      ColonsOfPieces(p[1..], pieces[1..]);
      ColonsConcat(pieces[0], Joined(pieces[1..]));
      NoColons(pieces[0]);
      assert FitsPiece(p[0], pieces[0]);
      if p[0] != STAR {
        assert pieces[0] == [p[0]] && [p[0]][1..] == [];
      }
      assert RunsInSegment(p, pieces) <==> (p[0] == STAR ==> COLON !in pieces[0]) && RunsInSegment(p[1..], pieces[1..]);
    }
  }

  /**
   * For every pattern and value: the match that the code finds is the documented
   * one exactly when the value has as many colons as the pattern.
   */
  lemma SingleSegmentIff(p: Text, v: Text)
    ensures SegmentMatches(p, v) <==> MatchWildcard(p, v) == Some(true) && Colons(v) == Colons(p)
  {
    MatchWildcardIff(p, v);
    hide MatchWildcard, FitsPieces, RunsInSegment, Joined;
    if p == [STAR] {
      NoColons(v);
      NoColons(p);
    } else {
      forall pieces: seq<Text> | FitsPieces(p, pieces) && Joined(pieces) == v
        ensures Colons(v) == Colons(p) <==> RunsInSegment(p, pieces)
      {
        ColonsOfPieces(p, pieces);
      }
    }
  }

  /** A prefix pattern leaves the segment on every extension with a colon. */
  lemma PrefixCrosses(q: Text, rest: Text)
    requires q != [] && STAR !in q && COLON in rest && MatchesRun(AnyUnit, rest)
    ensures MatchWildcard(q + [STAR], q + rest) == Some(true) && !SegmentMatches(q + [STAR], q + rest)
  {
    hide MatchWildcard, MatchesRun, SegmentMatches;
    PrefixPattern(q, q + rest);
    assert (q + rest)[|q|..] == rest;
    SingleSegmentIff(q + [STAR], q + rest);
    ColonsConcat(q, [STAR]);
    ColonsConcat(q, rest);
    NoColons([STAR]);
    NoColons(rest);
  }

  /** `did:prom:*` matches `did:prom:a:b`, across a segment. */
  lemma CrossesSegments()
    ensures var p, v := Units("did:prom:*"), Units("did:prom:a:b");
            MatchWildcard(p, v) == Some(true) && !SegmentMatches(p, v)
  {
    hide MatchWildcard, SegmentMatches;
    var q, rest := Units("did:prom:"), Units("a:b");
    assert rest[1] == COLON;
    PrefixCrosses(q, rest);
    assert Units("did:prom:*") == q + [STAR] && Units("did:prom:a:b") == q + rest;
  }
}
