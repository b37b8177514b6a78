/** The reader undoes the printer, whatever text follows. */
module JsonRoundTrip {
  import opened Wrappers
  import opened Utf16
  import opened Decimal
  import opened Json

  /** Text that a number before it cannot run into. */
  predicate EndsNumber(rest: Text) {
    rest == [] || !(IsDigit(rest[0]) || rest[0] == POINT || rest[0] == EXPONENT)
  }

  lemma Regroup(a: Text, b: Text, c: Text, d: Text, e: Text)
    ensures a + b + c + d + e == a + (b + (c + d + e))
    ensures a + b + c + d == a + (b + c + d)
    ensures a + b + c == a + (b + c)
  {
  }

  // ---------- Numbers ----------

  lemma {:induction false} SpanPrefix(ds: Text, rest: Text)
    requires AllDigits(ds)
    requires rest == [] || !IsDigit(rest[0])
    ensures SpanDigits(ds + rest) == |ds|
    ensures (ds + rest)[..|ds|] == ds && (ds + rest)[|ds|..] == rest
  {
    if ds == [] {
      assert ds + rest == rest;
    } else {
      SpanPrefix(ds[1..], rest);
      assert (ds + rest)[1..] == ds[1..] + rest;
    }
  }

  lemma {:induction false} LeadingZerosOf(n: nat, t: Text)
    requires t == [] || t[0] != ZERO
    ensures LeadingZeros(Zeros(n) + t) == n
    ensures (Zeros(n) + t)[n..] == t
  {
    if n == 0 {
      assert Zeros(0) + t == t;
    } else {
      LeadingZerosOf(n - 1, t);
      assert (Zeros(n) + t)[1..] == Zeros(n - 1) + t;
    }
  }

  lemma {:induction false} TrailingZerosOf(t: Text, n: nat)
    requires t == [] || t[|t| - 1] != ZERO
    ensures WithoutTrailingZeros(t + Zeros(n)) == t
  {
    if n == 0 {
      assert t + Zeros(0) == t;
    } else {
      TrailingZerosOf(t, n - 1);
      assert (t + Zeros(n))[..|t + Zeros(n)| - 1] == t + Zeros(n - 1);
    }
  }

  lemma NormalisePadded(negative: bool, before: nat, ds: Significand, after: nat, point: int)
    ensures AllDigits(Zeros(before) + ds + Zeros(after))
    ensures Normalise(negative, Zeros(before) + ds + Zeros(after), point)
         == Finite(negative, ds, point - before)
  {
    assert Zeros(before) + ds + Zeros(after) == Zeros(before) + (ds + Zeros(after));
    LeadingZerosOf(before, ds + Zeros(after));
    TrailingZerosOf(ds, after);
  }

  lemma ReadExponentPrinted(e: int, rest: Text)
    requires EndsNumber(rest)
    ensures ReadExponent(PrintExponent(e) + rest) == (e, rest)
  {
    var magnitude := Numeral(if e < 0 then -e else e);
    var t := PrintExponent(e) + rest;
    assert t[2..] == magnitude + rest;
    SpanPrefix(magnitude, rest);
    ValueOfNumeral(if e < 0 then -e else e);
  }

  lemma ReadFractionPrinted(ds: Text, rest: Text)
    requires AllDigits(ds)
    requires rest == [] || !IsDigit(rest[0])
    ensures ReadFraction([POINT] + ds + rest) == (ds, rest)
  {
    assert ([POINT] + ds + rest)[1..] == ds + rest;
    SpanPrefix(ds, rest);
  }

  /** The three parts of a number, read back in one piece. */
  lemma ReadParts(negative: bool, whole: Text, fraction: Text, e: int, afterWhole: Text, afterFraction: Text,
                  rest: Text)
    requires whole != [] && AllDigits(whole) && AllDigits(fraction)
    requires afterWhole == [] || !IsDigit(afterWhole[0])
    requires ReadFraction(afterWhole) == (fraction, afterFraction)
    requires ReadExponent(afterFraction) == (e, rest)
    ensures ReadUnsigned(negative, whole + afterWhole)
         == Some((Normalise(negative, whole + fraction, |whole| + e), rest))
  {
    hide SpanDigits, ReadFraction, ReadExponent, Normalise;
    SpanPrefix(whole, afterWhole);
    assert (whole + afterWhole)[..|whole|] == whole && (whole + afterWhole)[|whole|..] == afterWhole;
  }

  lemma NothingLeftToRead(rest: Text)
    requires EndsNumber(rest)
    ensures ReadFraction(rest) == ([], rest)
    ensures ReadExponent(rest) == (0, rest)
  {
  }

  lemma ReadInteger(negative: bool, ds: Significand, n: int, rest: Text)
    requires EndsNumber(rest) && |ds| <= n
    ensures ReadUnsigned(negative, ds + Zeros(n - |ds|) + rest) == Some((Finite(negative, ds, n), rest))
  {
    hide ReadUnsigned, ReadFraction, ReadExponent, Normalise;
    var whole := ds + Zeros(n - |ds|);
    NothingLeftToRead(rest);
    ReadParts(negative, whole, [], 0, rest, rest, rest);
    assert whole + [] == Zeros(0) + ds + Zeros(n - |ds|);
    NormalisePadded(negative, 0, ds, n - |ds|, n);
  }

  lemma ReadMixed(negative: bool, ds: Significand, n: int, rest: Text)
    requires EndsNumber(rest) && 0 < n < |ds|
    ensures ReadUnsigned(negative, ds[..n] + [POINT] + ds[n..] + rest) == Some((Finite(negative, ds, n), rest))
  {
    hide ReadUnsigned, ReadFraction, ReadExponent, Normalise;
    var afterWhole := [POINT] + ds[n..] + rest;
    NothingLeftToRead(rest);
    ReadFractionPrinted(ds[n..], rest);
    ReadParts(negative, ds[..n], ds[n..], 0, afterWhole, rest, rest);
    assert ds[..n] + ds[n..] == Zeros(0) + ds + Zeros(0);
    NormalisePadded(negative, 0, ds, 0, n);
    assert ds[..n] + [POINT] + ds[n..] + rest == ds[..n] + afterWhole;
  }

  lemma ReadSmall(negative: bool, ds: Significand, n: int, rest: Text)
    requires EndsNumber(rest) && n <= 0
    ensures ReadUnsigned(negative, [ZERO, POINT] + Zeros(-n) + ds + rest) == Some((Finite(negative, ds, n), rest))
  {
    hide ReadUnsigned, ReadFraction, ReadExponent, Normalise;
    var fraction := Zeros(-n) + ds;
    var afterWhole := [POINT] + fraction + rest;
    NothingLeftToRead(rest);
    ReadFractionPrinted(fraction, rest);
    ReadParts(negative, [ZERO], fraction, 0, afterWhole, rest, rest);
    assert [ZERO] + fraction == Zeros(1 - n) + ds + Zeros(0);
    NormalisePadded(negative, 1 - n, ds, 0, 1);
    assert [ZERO, POINT] + Zeros(-n) + ds + rest == [ZERO] + afterWhole;
  }

  lemma ReadOneDigitScientific(negative: bool, ds: Significand, n: int, rest: Text)
    requires EndsNumber(rest) && |ds| == 1
    ensures ReadUnsigned(negative, ds + PrintExponent(n - 1) + rest) == Some((Finite(negative, ds, n), rest))
  {
    hide ReadUnsigned, ReadExponent, Normalise;
    var afterWhole := PrintExponent(n - 1) + rest;
    ReadExponentPrinted(n - 1, rest);
    ReadParts(negative, ds, [], n - 1, afterWhole, afterWhole, rest);
    assert ds + [] == Zeros(0) + ds + Zeros(0);
    NormalisePadded(negative, 0, ds, 0, n);
    assert ds + PrintExponent(n - 1) + rest == ds + afterWhole;
  }

  lemma ReadScientific(negative: bool, ds: Significand, n: int, rest: Text)
    requires EndsNumber(rest) && |ds| > 1
    ensures ReadUnsigned(negative, ds[..1] + [POINT] + ds[1..] + PrintExponent(n - 1) + rest)
         == Some((Finite(negative, ds, n), rest))
  {
    hide ReadUnsigned, ReadFraction, ReadExponent, Normalise;
    var afterFraction := PrintExponent(n - 1) + rest;
    var afterWhole := [POINT] + ds[1..] + afterFraction;
    ReadExponentPrinted(n - 1, rest);
    ReadFractionPrinted(ds[1..], afterFraction);
    ReadParts(negative, ds[..1], ds[1..], n - 1, afterWhole, afterFraction, rest);
    assert ds[..1] + ds[1..] == Zeros(0) + ds + Zeros(0);
    NormalisePadded(negative, 0, ds, 0, n);
    assert ds[..1] + [POINT] + ds[1..] + PrintExponent(n - 1) + rest == ds[..1] + afterWhole;
  }

  lemma ReadMagnitude(negative: bool, ds: Significand, n: int, rest: Text)
    requires EndsNumber(rest)
    ensures ReadUnsigned(negative, PrintMagnitude(ds, n) + rest) == Some((Finite(negative, ds, n), rest))
  {
    hide ReadUnsigned, ReadFraction, ReadExponent, Normalise;
    if |ds| <= n <= 21 {
      ReadInteger(negative, ds, n, rest);
    } else if 0 < n <= 21 {
      ReadMixed(negative, ds, n, rest);
    } else if -6 < n <= 0 {
      ReadSmall(negative, ds, n, rest);
    } else if |ds| == 1 {
      ReadOneDigitScientific(negative, ds, n, rest);
    } else {
      ReadScientific(negative, ds, n, rest);
    }
  }

  lemma MagnitudeStart(ds: Significand, n: int)
    ensures PrintMagnitude(ds, n) != [] && IsDigit(PrintMagnitude(ds, n)[0])
  {
  }

  lemma ReadSigned(negative: bool, t: Text)
    requires t != [] && t[0] != MINUS
    ensures ReadNumber((if negative then [MINUS] else []) + t) == ReadUnsigned(negative, t)
  {
    hide ReadUnsigned;
    assert ([MINUS] + t)[1..] == t && [] + t == t;
  }

  lemma ReadFinite(negative: bool, ds: Significand, n: int, rest: Text)
    requires EndsNumber(rest)
    ensures ReadNumber(PrintNumber(Finite(negative, ds, n)) + rest) == Some((Finite(negative, ds, n), rest))
  {
    hide ReadUnsigned, ReadNumber, PrintMagnitude;
    var t := PrintMagnitude(ds, n) + rest;
    ReadMagnitude(negative, ds, n, rest);
    MagnitudeStart(ds, n);
    ReadSigned(negative, t);
    Regroup(if negative then [MINUS] else [], PrintMagnitude(ds, n), rest, [], []);
  }

  lemma ReadZero(rest: Text)
    requires EndsNumber(rest)
    ensures ReadNumber([ZERO] + rest) == Some((Zero, rest))
  {
    NothingLeftToRead(rest);
    ReadParts(false, [ZERO], [], 0, rest, rest, rest);
    assert [ZERO] + [] == Zeros(1) + [];
    LeadingZerosOf(1, []);
  }

  lemma NumberStart(x: Number)
    requires !x.NonFinite?
    ensures PrintNumber(x) != []
    ensures PrintNumber(x)[0] == MINUS || IsDigit(PrintNumber(x)[0])
  {
    if x.Finite? {
      MagnitudeStart(x.digits, x.point);
    }
  }

  lemma ReadNumberValue(t: Text, x: Number, rest: Text)
    requires t != [] && (t[0] == MINUS || IsDigit(t[0]))
    requires ReadNumber(t) == Some((x, rest))
    ensures ReadValue(t) == Some((Num(x), rest))
  {
    hide ReadNumber;
  }

  lemma ReadPrintedNumber(x: Number, rest: Text)
    requires EndsNumber(rest)
    ensures ReadValue(PrintNumber(x) + rest) == Some((ShownNumber(x), rest))
  {
    hide ReadValue, ReadNumber;
    if x.NonFinite? {
      ReadWord(Null, rest);
    } else {
      NumberStart(x);
      if x.Finite? {
        ReadFinite(x.negative, x.digits, x.point, rest);
      } else {
        ReadZero(rest);
      }
      ReadNumberValue(PrintNumber(x) + rest, if x.Finite? then x else Zero, rest);
    }
  }

  // ---------- Strings ----------

  lemma ReadHex(n: nat)
    requires n < 16
    ensures HexValue(HexDigit(n)) == Some(n)
  {
  }

  lemma HexDigitsOf(u: Unit)
    ensures u / 16 / 16 / 16 * 4096 + u / 16 / 16 % 16 * 256 + u / 16 % 16 * 16 + u % 16 == u
  {
    var q := u / 16;
    assert u == q * 16 + u % 16;
    assert q == q / 16 * 16 + q % 16;
    assert q / 16 == q / 16 / 16 * 16 + q / 16 % 16;
  }

  lemma ReadHexDigits(a: nat, b: nat, c: nat, d: nat, u: Unit, rest: Text)
    requires a < 16 && b < 16 && c < 16 && d < 16
    requires a * 4096 + b * 256 + c * 16 + d == u
    ensures ReadUnit([BACKSLASH, 0x75, HexDigit(a), HexDigit(b), HexDigit(c), HexDigit(d)] + rest) == Some((u, rest))
  {
    hide HexDigit, HexValue;
    ReadHex(a);
    ReadHex(b);
    ReadHex(c);
    ReadHex(d);
    assert ([BACKSLASH, 0x75, HexDigit(a), HexDigit(b), HexDigit(c), HexDigit(d)] + rest)[6..] == rest;
  }

  lemma ReadEscape(u: Unit, rest: Text)
    ensures ReadUnit(UnicodeEscape(u) + rest) == Some((u, rest))
  {
    hide ReadUnit, HexDigit;
    HexDigitsOf(u);
    ReadHexDigits(u / 16 / 16 / 16, u / 16 / 16 % 16, u / 16 % 16, u % 16, u, rest);
  }

  lemma EscapeStart(u: Unit)
    ensures UnicodeEscape(u) != [] && UnicodeEscape(u)[0] == BACKSLASH
  {
  }

  lemma ReadQuotedUnit(u: Unit, rest: Text)
    ensures ReadUnit(QuoteUnit(u) + rest) == Some((u, rest))
    ensures (QuoteUnit(u) + rest)[0] != QUOTE
  {
    hide UnicodeEscape;
    if u < 0x20 || IsHigh(u) || IsLow(u) {
      ReadEscape(u, rest);
      assert (UnicodeEscape(u) + rest)[0] == BACKSLASH by { EscapeStart(u); }
    }
  }

  lemma ReadCharsStep(t: Text, u: Unit, t1: Text, s: Text, rest: Text)
    requires t != [] && t[0] != QUOTE
    requires ReadUnit(t) == Some((u, t1))
    requires ReadChars(t1) == Some((s, rest))
    ensures ReadChars(t) == Some(([u] + s, rest))
  {
  }

  lemma ReadClosingQuote(rest: Text)
    ensures ReadChars([QUOTE] + rest) == Some(([], rest))
  {
    assert ([QUOTE] + rest)[1..] == rest;
  }

  lemma {:induction false} ReadQuoted(s: Text, rest: Text)
    ensures ReadChars(QuoteUnits(s) + [QUOTE] + rest) == Some((s, rest))
    decreases |s|
  {
    hide ReadChars, ReadUnit, QuoteUnit;
    if s == [] {
      ReadClosingQuote(rest);
      assert QuoteUnits(s) + [QUOTE] + rest == [QUOTE] + rest;
    } else if |s| >= 2 && IsHigh(s[0]) && IsLow(s[1]) {
      ReadQuotedPair(s, rest);
    } else {
      var tail := QuoteUnits(s[1..]) + [QUOTE] + rest;
      Regroup(QuoteUnit(s[0]), QuoteUnits(s[1..]), [QUOTE], rest, []);
      ReadQuoted(s[1..], rest);
      ReadQuotedUnit(s[0], tail);
      ReadCharsStep(QuoteUnit(s[0]) + tail, s[0], tail, s[1..], rest);
      assert [s[0]] + s[1..] == s;
    }
  }

  lemma {:induction false} ReadQuotedPair(s: Text, rest: Text)
    requires |s| >= 2 && IsHigh(s[0]) && IsLow(s[1])
    ensures ReadChars(QuoteUnits(s) + [QUOTE] + rest) == Some((s, rest))
    decreases |s|, 0
  {
    var tail := QuoteUnits(s[2..]) + [QUOTE] + rest;
    ReadQuoted(s[2..], rest);
    var low, both := [s[1]] + tail, [s[0]] + ([s[1]] + tail);
    ReadCharsStep(low, s[1], tail, s[2..], rest);
    ReadCharsStep(both, s[0], low, [s[1]] + s[2..], rest);
    assert QuoteUnits(s) + [QUOTE] + rest == both;
    assert [s[0]] + ([s[1]] + s[2..]) == s;
  }

  // ---------- Values ----------

  /** Printed values start with a unit that no closing bracket can be mistaken for. */
  lemma PrintStart(v: Json)
    ensures Print(v) != [] && Print(v)[0] != CLOSE_ARRAY
  {
    if v.Num? && !v.number.NonFinite? {
      NumberStart(v.number);
    }
  }

  lemma MembersStart(ms: seq<Member>)
    requires ms != []
    ensures PrintMembers(ms) != [] && PrintMembers(ms)[0] == QUOTE
  {
    assert PrintMember(ms[0])[0] == QUOTE;
  }

  lemma ElemsStart(es: seq<Json>)
    requires es != []
    ensures PrintElems(es) != [] && PrintElems(es)[0] != CLOSE_ARRAY
  {
    PrintStart(es[0]);
  }

  /** The four ways a reader moves past a bracket, a comma or a colon. */
  lemma ReadLastElem(t: Text, v: Json, rest: Text)
    requires ReadValue(t) == Some((v, [CLOSE_ARRAY] + rest))
    ensures ReadElems(t) == Some(([v], rest))
  {
    assert ([CLOSE_ARRAY] + rest)[1..] == rest;
  }

  lemma ReadNextElem(t: Text, v: Json, tail: Text, vs: seq<Json>, rest: Text)
    requires ReadValue(t) == Some((v, [COMMA] + tail))
    requires ReadElems(tail) == Some((vs, rest))
    ensures ReadElems(t) == Some(([v] + vs, rest))
  {
    assert ([COMMA] + tail)[1..] == tail;
  }

  lemma ReadLastMember(t: Text, m: Member, rest: Text)
    requires ReadMember(t) == Some((m, [CLOSE_OBJECT] + rest))
    ensures ReadMembers(t) == Some(([m], rest))
  {
    assert ([CLOSE_OBJECT] + rest)[1..] == rest;
  }

  lemma ReadNextMember(t: Text, m: Member, tail: Text, ms: seq<Member>, rest: Text)
    requires ReadMember(t) == Some((m, [COMMA] + tail))
    requires ReadMembers(tail) == Some((ms, rest))
    ensures ReadMembers(t) == Some(([m] + ms, rest))
  {
    assert ([COMMA] + tail)[1..] == tail;
  }

  lemma ReadKeyAndValue(afterQuote: Text, key: Text, afterColon: Text, v: Json, rest: Text)
    requires ReadChars(afterQuote) == Some((key, [COLON] + afterColon))
    requires ReadValue(afterColon) == Some((v, rest))
    ensures ReadMember([QUOTE] + afterQuote) == Some((Member(key, v), rest))
  {
    assert ([QUOTE] + afterQuote)[1..] == afterQuote;
    assert ([COLON] + afterColon)[1..] == afterColon;
  }

  lemma ReadArray(t: Text, es: seq<Json>, rest: Text)
    requires t != [] && t[0] != CLOSE_ARRAY
    requires ReadElems(t) == Some((es, rest))
    ensures ReadValue([OPEN_ARRAY] + t) == Some((Arr(es), rest))
  {
    hide ReadElems, ReadMembers, ReadChars, ReadNumber;
    assert ([OPEN_ARRAY] + t)[1..] == t;
  }

  lemma ReadObject(t: Text, ms: seq<Member>, rest: Text)
    requires t != [] && t[0] != CLOSE_OBJECT
    requires ReadMembers(t) == Some((ms, rest))
    ensures ReadValue([OPEN_OBJECT] + t) == Some((Obj(ms), rest))
  {
    hide ReadElems, ReadMembers, ReadChars, ReadNumber;
    assert ([OPEN_OBJECT] + t)[1..] == t;
  }

  lemma ReadText(t: Text, s: Text, rest: Text)
    requires ReadChars(t) == Some((s, rest))
    ensures ReadValue([QUOTE] + t) == Some((Str(s), rest))
  {
    assert ([QUOTE] + t)[1..] == t;
  }

  lemma ReadWord(v: Json, rest: Text)
    requires v.Null? || v.Bool?
    ensures ReadValue(Print(v) + rest) == Some((v, rest))
  {
    assert (Print(v) + rest)[|Print(v)|..] == rest;
  }

  lemma ReadEmpty(v: Json, rest: Text)
    requires v == Arr([]) || v == Obj([])
    ensures ReadValue(Print(v) + rest) == Some((Shown(v), rest))
  {
    hide ReadElems, ReadMembers;
    assert |Print(v)| == 2;
    assert (Print(v) + rest)[2..] == rest;
  }

  /** Reading a printed value gives back the value it shows, and all the text after it. */
  lemma {:induction false} ReadPrint(v: Json, rest: Text)
    requires v.Num? ==> EndsNumber(rest)
    ensures ReadValue(Print(v) + rest) == Some((Shown(v), rest))
    decreases v
  {
    hide ReadValue, ReadElems, ReadMembers, ReadChars, PrintElems, PrintMembers, QuoteUnits, ShownElems, ShownMembers;
    match v
    case Null => ReadWord(v, rest);
    case Bool(b) => ReadWord(v, rest);
    case Num(x) => ReadPrintedNumber(x, rest);
    case Str(s) =>
      ReadQuoted(s, rest);
      ReadText(QuoteUnits(s) + [QUOTE] + rest, s, rest);
      Regroup([QUOTE], QuoteUnits(s), [QUOTE], rest, []);
    case Arr(es) =>
      if es == [] {
        ReadEmpty(v, rest);
      } else {
        ReadPrintElems(es, rest);
        ElemsStart(es);
        ReadArray(PrintElems(es) + [CLOSE_ARRAY] + rest, ShownElems(es), rest);
        Regroup([OPEN_ARRAY], PrintElems(es), [CLOSE_ARRAY], rest, []);
      }
    case Obj(ms) =>
      if ms == [] {
        ReadEmpty(v, rest);
      } else {
        ReadPrintMembers(ms, rest);
        MembersStart(ms);
        ReadObject(PrintMembers(ms) + [CLOSE_OBJECT] + rest, ShownMembers(ms), rest);
        Regroup([OPEN_OBJECT], PrintMembers(ms), [CLOSE_OBJECT], rest, []);
      }
  }

  lemma {:induction false} ReadPrintElems(es: seq<Json>, rest: Text)
    requires es != []
    ensures ReadElems(PrintElems(es) + [CLOSE_ARRAY] + rest) == Some((ShownElems(es), rest))
    decreases es
  {
    hide ReadValue, ReadElems, Print, Shown;
    var t := PrintElems(es) + [CLOSE_ARRAY] + rest;
    if |es| == 1 {
      ReadPrint(es[0], [CLOSE_ARRAY] + rest);
      Regroup(Print(es[0]), [CLOSE_ARRAY], rest, [], []);
      ReadLastElem(t, Shown(es[0]), rest);
      assert ShownElems(es) == [Shown(es[0])];
    } else {
      var tail := PrintElems(es[1..]) + [CLOSE_ARRAY] + rest;
      ReadPrint(es[0], [COMMA] + tail);
      ReadPrintElems(es[1..], rest);
      Regroup(Print(es[0]), [COMMA], PrintElems(es[1..]), [CLOSE_ARRAY], rest);
      ReadNextElem(t, Shown(es[0]), tail, ShownElems(es[1..]), rest);
    }
  }

  lemma {:induction false} ReadPrintMember(m: Member, rest: Text)
    requires rest != [] && EndsNumber(rest)
    ensures ReadMember(PrintMember(m) + rest) == Some((Member(m.key, Shown(m.value)), rest))
    decreases m
  {
    hide ReadValue, ReadElems, ReadMember, ReadMembers, ReadChars;
    var afterColon := Print(m.value) + rest;
    var afterQuote := QuoteUnits(m.key) + [QUOTE] + ([COLON] + afterColon);
    ReadQuoted(m.key, [COLON] + afterColon);
    ReadPrint(m.value, rest);
    ReadKeyAndValue(afterQuote, m.key, afterColon, Shown(m.value), rest);
    assert PrintMember(m) + rest == [QUOTE] + afterQuote;
  }

  lemma {:induction false} ReadPrintMembers(ms: seq<Member>, rest: Text)
    requires ms != []
    ensures ReadMembers(PrintMembers(ms) + [CLOSE_OBJECT] + rest) == Some((ShownMembers(ms), rest))
    decreases ms
  {
    hide ReadMember, ReadMembers, PrintMember, Shown;
    var t := PrintMembers(ms) + [CLOSE_OBJECT] + rest;
    var shown := Member(ms[0].key, Shown(ms[0].value));
    if |ms| == 1 {
      ReadPrintMember(ms[0], [CLOSE_OBJECT] + rest);
      Regroup(PrintMember(ms[0]), [CLOSE_OBJECT], rest, [], []);
      ReadLastMember(t, shown, rest);
      assert ShownMembers(ms) == [shown];
    } else {
      var tail := PrintMembers(ms[1..]) + [CLOSE_OBJECT] + rest;
      ReadPrintMember(ms[0], [COMMA] + tail);
      ReadPrintMembers(ms[1..], rest);
      Regroup(PrintMember(ms[0]), [COMMA], PrintMembers(ms[1..]), [CLOSE_OBJECT], rest);
      ReadNextMember(t, shown, tail, ShownMembers(ms[1..]), rest);
    }
  }

  /** Two values print alike exactly when they show alike. */
  lemma PrintInjective(v: Json, w: Json)
    ensures Print(v) == Print(w) <==> Shown(v) == Shown(w)
  {
    ReadPrint(v, []);
    ReadPrint(w, []);
    assert Print(v) + [] == Print(v) && Print(w) + [] == Print(w);
    PrintShown(v);
    PrintShown(w);
  }

  /** Printing already shows all there is to show. */
  lemma {:induction false} PrintShown(v: Json)
    ensures Print(Shown(v)) == Print(v)
    decreases v
  {
    match v
    case Arr(es) => PrintShownElems(es);
    case Obj(ms) => PrintShownMembers(ms);
    case _ =>
  }

  lemma {:induction false} PrintShownElems(es: seq<Json>)
    ensures PrintElems(ShownElems(es)) == PrintElems(es)
    decreases es
  {
    if es != [] {
      PrintShown(es[0]);
      PrintShownElems(es[1..]);
      assert ShownElems(es)[1..] == ShownElems(es[1..]);
    }
  }

  lemma {:induction false} PrintShownMembers(ms: seq<Member>)
    ensures PrintMembers(ShownMembers(ms)) == PrintMembers(ms)
    decreases ms
  {
    if ms != [] {
      PrintShown(ms[0].value);
      PrintShownMembers(ms[1..]);
      assert ShownMembers(ms)[1..] == ShownMembers(ms[1..]);
    }
  }
}
