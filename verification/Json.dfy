/** JSON values, `JSON.stringify` (ECMA-262 section 25.5.2) and a reader that undoes it. */
module Json {
  import opened Wrappers
  import opened Utf16
  import opened Decimal

  const QUOTE: Unit := 0x22
  const BACKSLASH: Unit := 0x5C
  const COMMA: Unit := 0x2C
  const COLON: Unit := 0x3A
  const MINUS: Unit := 0x2D
  const PLUS: Unit := 0x2B
  const POINT: Unit := 0x2E
  const EXPONENT: Unit := 0x65
  const OPEN_ARRAY: Unit := 0x5B
  const CLOSE_ARRAY: Unit := 0x5D
  const OPEN_OBJECT: Unit := 0x7B
  const CLOSE_OBJECT: Unit := 0x7D

  const NULL_TEXT: Text := [0x6E, 0x75, 0x6C, 0x6C]
  const TRUE_TEXT: Text := [0x74, 0x72, 0x75, 0x65]
  const FALSE_TEXT: Text := [0x66, 0x61, 0x6C, 0x73, 0x65]

  /** The digits of a nonzero number: neither end is a zero. */
  predicate IsSignificand(t: Text) {
    t != [] && AllDigits(t) && t[0] != ZERO && t[|t| - 1] != ZERO
  }

  type Significand = t: Text | IsSignificand(t) witness [49]

  /**
   * A JavaScript number as ECMA-262 section 6.1.6.1.20 prints it: `Finite` is
   * 0.digits * 10^point, with the shortest digits that denote the number.
   */
  datatype Number =
    | Zero
    | NegativeZero
    | Finite(negative: bool, digits: Significand, point: int)
    | NonFinite

  /** A JavaScript value made of JSON parts; an object lists its own properties in order. */
  datatype Json =
    | Null
    | Bool(b: bool)
    | Num(number: Number)
    | Str(text: Text)
    | Arr(elems: seq<Json>)
    | Obj(members: seq<Member>)

  datatype Member = Member(key: Text, value: Json)

  // ---------- JSON.stringify ----------

  function Zeros(n: nat): (t: Text)
    ensures |t| == n && forall i :: 0 <= i < n ==> t[i] == ZERO
  {
    seq(n, _ => ZERO)
  }

  function PrintExponent(e: int): Text {
    [EXPONENT, if e < 0 then MINUS else PLUS] + Numeral(if e < 0 then -e else e)
  }

  function PrintMagnitude(ds: Significand, n: int): Text {
    if |ds| <= n <= 21 then ds + Zeros(n - |ds|)
    else if 0 < n <= 21 then ds[..n] + [POINT] + ds[n..]
    else if -6 < n <= 0 then [ZERO, POINT] + Zeros(-n) + ds
    else if |ds| == 1 then ds + PrintExponent(n - 1)
    else ds[..1] + [POINT] + ds[1..] + PrintExponent(n - 1)
  }

  function PrintNumber(x: Number): Text {
    match x
    case Zero => [ZERO]
    case NegativeZero => [ZERO]
    case Finite(negative, ds, n) => (if negative then [MINUS] else []) + PrintMagnitude(ds, n)
    case NonFinite => NULL_TEXT
  }

  predicate IsHigh(u: Unit) { 0xD800 <= u < 0xDC00 }
  predicate IsLow(u: Unit) { 0xDC00 <= u < 0xE000 }

  function HexDigit(n: nat): Unit
    requires n < 16
  {
    if n < 10 then ZERO + n else 0x61 + (n - 10)
  }

  function UnicodeEscape(u: Unit): Text {
    [BACKSLASH, 0x75, HexDigit(u / 16 / 16 / 16), HexDigit(u / 16 / 16 % 16), HexDigit(u / 16 % 16), HexDigit(u % 16)]
  }

  /** One code unit that is not half of a surrogate pair. */
  function QuoteUnit(u: Unit): Text {
    if u == 0x08 then [BACKSLASH, 0x62]
    else if u == 0x09 then [BACKSLASH, 0x74]
    else if u == 0x0A then [BACKSLASH, 0x6E]
    else if u == 0x0C then [BACKSLASH, 0x66]
    else if u == 0x0D then [BACKSLASH, 0x72]
    else if u == QUOTE || u == BACKSLASH then [BACKSLASH, u]
    else if u < 0x20 || IsHigh(u) || IsLow(u) then UnicodeEscape(u)
    else [u]
  }

  function QuoteUnits(s: Text): Text {
    if s == [] then []
    else if |s| >= 2 && IsHigh(s[0]) && IsLow(s[1]) then s[..2] + QuoteUnits(s[2..])
    else QuoteUnit(s[0]) + QuoteUnits(s[1..])
  }

  function PrintString(s: Text): Text { [QUOTE] + QuoteUnits(s) + [QUOTE] }

  function Print(v: Json): Text
    decreases v
  {
    match v
    case Null => NULL_TEXT
    case Bool(b) => if b then TRUE_TEXT else FALSE_TEXT
    case Num(x) => PrintNumber(x)
    case Str(s) => PrintString(s)
    case Arr(es) => [OPEN_ARRAY] + PrintElems(es) + [CLOSE_ARRAY]
    case Obj(ms) => [OPEN_OBJECT] + PrintMembers(ms) + [CLOSE_OBJECT]
  }

  function PrintElems(es: seq<Json>): Text
    decreases es
  {
    if es == [] then []
    else if |es| == 1 then Print(es[0])
    else Print(es[0]) + [COMMA] + PrintElems(es[1..])
  }

  function PrintMember(m: Member): Text
    decreases m
  {
    PrintString(m.key) + [COLON] + Print(m.value)
  }

  function PrintMembers(ms: seq<Member>): Text
    decreases ms
  {
    if ms == [] then []
    else if |ms| == 1 then PrintMember(ms[0])
    else PrintMember(ms[0]) + [COMMA] + PrintMembers(ms[1..])
  }

  // ---------- A reader for RFC 8259 text ----------

  type Read<T> = Option<(T, Text)>

  function Expect(word: Text, t: Text): Option<Text> {
    if word <= t then Some(t[|word|..]) else None
  }

  function SpanDigits(t: Text): (n: nat)
    ensures n <= |t|
  {
    if t == [] || !IsDigit(t[0]) then 0 else 1 + SpanDigits(t[1..])
  }

  function LeadingZeros(t: Text): (n: nat)
    ensures n <= |t|
    ensures n < |t| ==> t[n] != ZERO
  {
    if t == [] || t[0] != ZERO then 0 else 1 + LeadingZeros(t[1..])
  }

  function WithoutTrailingZeros(t: Text): (s: Text)
    ensures s <= t
    ensures s != [] ==> s[|s| - 1] != ZERO
  {
    if t == [] || t[|t| - 1] != ZERO then t else WithoutTrailingZeros(t[..|t| - 1])
  }

  /** The number 0.ds * 10^point for any run of digits. */
  function Normalise(negative: bool, ds: Text, point: int): Number
    requires AllDigits(ds)
  {
    var z := LeadingZeros(ds);
    var significand := WithoutTrailingZeros(ds[z..]);
    if significand == [] then if negative then NegativeZero else Zero
    else Finite(negative, significand, point - z)
  }

  lemma SpanIsDigits(t: Text)
    ensures AllDigits(t[..SpanDigits(t)])
  {
    if t != [] && IsDigit(t[0]) {
      SpanIsDigits(t[1..]);
      var n := SpanDigits(t[1..]);
      assert t[..1 + n] == [t[0]] + t[1..][..n];
    }
  }

  function ReadExponent(t: Text): (r: (int, Text))
    ensures |r.1| <= |t|
  {
    if |t| >= 2 && t[0] == EXPONENT && (t[1] == MINUS || t[1] == PLUS) then
      var n := SpanDigits(t[2..]);
      var e := Value(t[2..][..n]);
      (if t[1] == MINUS then -e else e, t[2..][n..])
    else (0, t)
  }

  function ReadFraction(t: Text): (r: (Text, Text))
    ensures AllDigits(r.0) && |r.1| <= |t|
  {
    if t != [] && t[0] == POINT then
      var n := SpanDigits(t[1..]);
      SpanIsDigits(t[1..]);
      (t[1..][..n], t[1..][n..])
    else ([], t)
  }

  function ReadUnsigned(negative: bool, t: Text): (r: Read<Number>)
    ensures r.Some? ==> |r.value.1| < |t|
  {
    var n := SpanDigits(t);
    if n == 0 then None
    else
      var (fraction, t2) := ReadFraction(t[n..]);
      var (e, rest) := ReadExponent(t2);
      SpanIsDigits(t);
      Some((Normalise(negative, t[..n] + fraction, n + e), rest))
  }

  function ReadNumber(t: Text): (r: Read<Number>)
    ensures r.Some? ==> |r.value.1| < |t|
  {
    if t != [] && t[0] == MINUS then ReadUnsigned(true, t[1..]) else ReadUnsigned(false, t)
  }

  function HexValue(u: Unit): Option<nat> {
    if IsDigit(u) then Some(u - ZERO)
    else if 0x61 <= u <= 0x66 then Some(u - 0x61 + 10)
    else if 0x41 <= u <= 0x46 then Some(u - 0x41 + 10)
    else None
  }

  /** One character of a string: an escape sequence or a plain code unit. */
  function ReadUnit(t: Text): (r: Read<Unit>)
    ensures r.Some? ==> |r.value.1| < |t|
  {
    if t == [] || t[0] < 0x20 || t[0] == QUOTE then None
    else if t[0] != BACKSLASH then Some((t[0], t[1..]))
    else if |t| < 2 then None
    else if t[1] == QUOTE || t[1] == BACKSLASH || t[1] == 0x2F then Some((t[1], t[2..]))
    else if t[1] == 0x62 then Some((0x08, t[2..]))
    else if t[1] == 0x66 then Some((0x0C, t[2..]))
    else if t[1] == 0x6E then Some((0x0A, t[2..]))
    else if t[1] == 0x72 then Some((0x0D, t[2..]))
    else if t[1] == 0x74 then Some((0x09, t[2..]))
    else if t[1] == 0x75 && |t| >= 6 then
      match (HexValue(t[2]), HexValue(t[3]), HexValue(t[4]), HexValue(t[5]))
      case (Some(a), Some(b), Some(c), Some(d)) =>
        var u := a * 4096 + b * 256 + c * 16 + d;
        if u < 0x1_0000 then Some((u, t[6..])) else None
      case _ => None
    else None
  }

  /** The rest of a string after its opening quote. */
  function ReadChars(t: Text): (r: Read<Text>)
    ensures r.Some? ==> |r.value.1| < |t|
    decreases |t|
  {
    if t != [] && t[0] == QUOTE then Some(([], t[1..]))
    else
      match ReadUnit(t)
      case None => None
      case Some((u, t1)) =>
        match ReadChars(t1)
        case None => None
        case Some((s, rest)) => Some(([u] + s, rest))
  }

  function ReadValue(t: Text): (r: Read<Json>)
    ensures r.Some? ==> |r.value.1| < |t|
    decreases |t|, 0
  {
    if t == [] then None
    else if t[0] == NULL_TEXT[0] then
      match Expect(NULL_TEXT, t) case None => None case Some(rest) => Some((Null, rest))
    else if t[0] == TRUE_TEXT[0] then
      match Expect(TRUE_TEXT, t) case None => None case Some(rest) => Some((Bool(true), rest))
    else if t[0] == FALSE_TEXT[0] then
      match Expect(FALSE_TEXT, t) case None => None case Some(rest) => Some((Bool(false), rest))
    else if t[0] == QUOTE then
      match ReadChars(t[1..]) case None => None case Some((s, rest)) => Some((Str(s), rest))
    else if t[0] == OPEN_ARRAY then
      if |t| >= 2 && t[1] == CLOSE_ARRAY then Some((Arr([]), t[2..]))
      else match ReadElems(t[1..]) case None => None case Some((es, rest)) => Some((Arr(es), rest))
    else if t[0] == OPEN_OBJECT then
      if |t| >= 2 && t[1] == CLOSE_OBJECT then Some((Obj([]), t[2..]))
      else match ReadMembers(t[1..]) case None => None case Some((ms, rest)) => Some((Obj(ms), rest))
    else match ReadNumber(t) case None => None case Some((x, rest)) => Some((Num(x), rest))
  }

  /** One or more elements and the closing bracket. */
  function ReadElems(t: Text): (r: Read<seq<Json>>)
    ensures r.Some? ==> |r.value.1| < |t|
    decreases |t|, 1
  {
    match ReadValue(t)
    case None => None
    case Some((v, t1)) =>
      if t1 == [] then None
      else if t1[0] == CLOSE_ARRAY then Some(([v], t1[1..]))
      else if t1[0] != COMMA then None
      else
        match ReadElems(t1[1..])
        case None => None
        case Some((vs, rest)) => Some(([v] + vs, rest))
  }

  function ReadMember(t: Text): (r: Read<Member>)
    ensures r.Some? ==> |r.value.1| < |t|
    decreases |t|, 1
  {
    if t == [] || t[0] != QUOTE then None
    else
      match ReadChars(t[1..])
      case None => None
      case Some((key, t1)) =>
        if t1 == [] || t1[0] != COLON then None
        else
          match ReadValue(t1[1..])
          case None => None
          case Some((v, rest)) => Some((Member(key, v), rest))
  }

  /** One or more members and the closing brace. */
  function ReadMembers(t: Text): (r: Read<seq<Member>>)
    ensures r.Some? ==> |r.value.1| < |t|
    decreases |t|, 2
  {
    match ReadMember(t)
    case None => None
    case Some((m, t1)) =>
      if t1 == [] then None
      else if t1[0] == CLOSE_OBJECT then Some(([m], t1[1..]))
      else if t1[0] != COMMA then None
      else
        match ReadMembers(t1[1..])
        case None => None
        case Some((ms, rest)) => Some(([m] + ms, rest))
  }

  // ---------- What printing keeps ----------

  function ShownNumber(x: Number): Json {
    match x
    case Zero => Num(Zero)
    case NegativeZero => Num(Zero)
    case Finite(_, _, _) => Num(x)
    case NonFinite => Null
  }

  /** The value as its text shows it: -0 is 0, and a number that is not finite is null. */
  function Shown(v: Json): Json
    decreases v
  {
    match v
    case Null => v
    case Bool(_) => v
    case Num(x) => ShownNumber(x)
    case Str(_) => v
    case Arr(es) => Arr(ShownElems(es))
    case Obj(ms) => Obj(ShownMembers(ms))
  }

  function ShownElems(es: seq<Json>): (r: seq<Json>)
    ensures |r| == |es| && forall i :: 0 <= i < |es| ==> r[i] == Shown(es[i])
    decreases es
  {
    if es == [] then [] else [Shown(es[0])] + ShownElems(es[1..])
  }

  function ShownMembers(ms: seq<Member>): (r: seq<Member>)
    ensures |r| == |ms| && forall i :: 0 <= i < |ms| ==> r[i] == Member(ms[i].key, Shown(ms[i].value))
    decreases ms
  {
    if ms == [] then [] else [Member(ms[0].key, Shown(ms[0].value))] + ShownMembers(ms[1..])
  }
}
