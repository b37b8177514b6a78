/** src/common/crypto/request-canonicalization.ts: one string for each request, whatever the key order. */
module Canonicalization {
  import opened Utf16
  import opened Decimal
  import opened Json

  // ---------- Own properties of a JavaScript object ----------

  const PROTO := Units("__proto__")

  /** ECMA-262 section 6.1.7: a canonical numeral below 2^32 - 1. */
  predicate IsArrayIndex(key: Text) { IsNumeral(key) && Value(key) < 0xFFFF_FFFF }

  /** The order in which an object lists keys inserted in code-unit order. */
  predicate KeyLess(a: Text, b: Text) {
    if IsArrayIndex(a) && IsArrayIndex(b) then Value(a) < Value(b)
    else if IsArrayIndex(a) || IsArrayIndex(b) then IsArrayIndex(a)
    else UnitLess(a, b)
  }

  predicate HasKey(ms: seq<Member>, key: Text) { exists m :: m in ms && m.key == key }

  predicate DistinctKeys(ms: seq<Member>) {
    forall i, j :: 0 <= i < j < |ms| ==> ms[i].key != ms[j].key
  }

  function InsertIndex(ms: seq<Member>, m: Member): seq<Member> {
    if ms == [] || !IsArrayIndex(ms[0].key) || Value(m.key) < Value(ms[0].key) then [m] + ms
    else [ms[0]] + InsertIndex(ms[1..], m)
  }

  /**
   * `acc[key] = value`. The setter that every object inherits takes `__proto__`
   * away; array indices keep to the front, in ascending order.
   */
  function Assign(acc: seq<Member>, m: Member): seq<Member> {
    if m.key == PROTO then acc
    else if HasKey(acc, m.key) then
      seq(|acc|, i requires 0 <= i < |acc| => if acc[i].key == m.key then m else acc[i])
    else if IsArrayIndex(m.key) then InsertIndex(acc, m)
    else acc + [m]
  }

  function AssignAll(acc: seq<Member>, ms: seq<Member>): seq<Member>
    decreases |ms|
  {
    if ms == [] then acc else AssignAll(Assign(acc, ms[0]), ms[1..])
  }

  // ---------- sortKeysDeep ----------

  function InsertSorted(m: Member, ms: seq<Member>): seq<Member> {
    if ms == [] || UnitLess(m.key, ms[0].key) then [m] + ms else [ms[0]] + InsertSorted(m, ms[1..])
  }

  function SortByKey(ms: seq<Member>): seq<Member> {
    if ms == [] then [] else InsertSorted(ms[0], SortByKey(ms[1..]))
  }

  function SortKeysDeep(v: Json): Json
    decreases v
  {
    match v
    case Arr(es) => Arr(seq(|es|, i requires 0 <= i < |es| => SortKeysDeep(es[i])))
    case Obj(ms) =>
      var sorted := seq(|ms|, i requires 0 <= i < |ms| => Member(ms[i].key, SortKeysDeep(ms[i].value)));
      Obj(AssignAll([], SortByKey(sorted)))
    case _ => v
  }

  // ---------- The signed envelope ----------

  /** An optional property of the envelope; the request checks let an explicit null through. */
  datatype Field = Undefined | NullField | TextField(text: Text)

  datatype Envelope = Envelope(
    agentFromId: Text,
    agentToId: Text,
    sessionId: Text,
    requestPayload: Json,
    maxBudget: Number,
    policyDigest: Field,
    nonce: Field)

  const AGENT_FROM_ID := Units("agentFromId")
  const AGENT_TO_ID := Units("agentToId")
  const SESSION_ID := Units("sessionId")
  const REQUEST_PAYLOAD := Units("requestPayload")
  const MAX_BUDGET := Units("maxBudget")
  const POLICY_DIGEST := Units("policyDigest")
  const NONCE := Units("nonce")

  function FieldMembers(key: Text, f: Field): seq<Member> {
    match f
    case Undefined => []
    case NullField => [Member(key, Null)]
    case TextField(t) => [Member(key, Str(t))]
  }

  function FixedMembers(e: Envelope): seq<Member> {
    [Member(AGENT_FROM_ID, Str(e.agentFromId)),
     Member(AGENT_TO_ID, Str(e.agentToId)),
     Member(SESSION_ID, Str(e.sessionId)),
     Member(REQUEST_PAYLOAD, SortKeysDeep(e.requestPayload)),
     Member(MAX_BUDGET, Num(e.maxBudget))]
  }

  function Normalized(e: Envelope): Json {
    Obj(FixedMembers(e) + FieldMembers(POLICY_DIGEST, e.policyDigest) + FieldMembers(NONCE, e.nonce))
  }

  function CanonicalizeSignedRequest(e: Envelope): Text { Print(Normalized(e)) }

  // ---------- What a value means, key order aside ----------

  datatype Meaning =
    | NullMeaning
    | BoolMeaning(b: bool)
    | NumberMeaning(number: Number)
    | TextMeaning(text: Text)
    | ListMeaning(elems: seq<Meaning>)
    | MapMeaning(members: map<Text, Meaning>)

  function MeaningOf(v: Json): Meaning
    decreases v
  {
    match v
    case Null => NullMeaning
    case Bool(b) => BoolMeaning(b)
    case Num(x) => NumberMeaning(x)
    case Str(t) => TextMeaning(t)
    case Arr(es) => ListMeaning(seq(|es|, i requires 0 <= i < |es| => MeaningOf(es[i])))
    case Obj(ms) => MapMeaning(MembersMeaning(ms))
  }

  function MembersMeaning(ms: seq<Member>): map<Text, Meaning>
    decreases ms
  {
    if ms == [] then map[] else MembersMeaning(ms[1..])[ms[0].key := MeaningOf(ms[0].value)]
  }

  /** No object in the value lists a key twice: true of every JavaScript value. */
  predicate WellFormed(v: Json)
    decreases v
  {
    match v
    case Arr(es) => forall i :: 0 <= i < |es| ==> WellFormed(es[i])
    case Obj(ms) => DistinctKeys(ms) && forall i :: 0 <= i < |ms| ==> WellFormed(ms[i].value)
    case _ => true
  }

  /** Objects list their keys in the one fixed order, and none is `__proto__`. */
  predicate Normal(v: Json)
    decreases v
  {
    match v
    case Arr(es) => forall i :: 0 <= i < |es| ==> Normal(es[i])
    case Obj(ms) => SortedKeys(ms) && !HasKey(ms, PROTO) && forall i :: 0 <= i < |ms| ==> Normal(ms[i].value)
    case _ => true
  }

  predicate SortedKeys(ms: seq<Member>) {
    forall i, j :: 0 <= i < j < |ms| ==> KeyLess(ms[i].key, ms[j].key)
  }

  /** A meaning without its `__proto__` keys, at every depth. */
  function WithoutProto(x: Meaning): Meaning
    decreases x
  {
    match x
    case ListMeaning(es) => ListMeaning(seq(|es|, i requires 0 <= i < |es| => WithoutProto(es[i])))
    case MapMeaning(ms) => MapMeaning(map k | k in ms && k != PROTO :: WithoutProto(ms[k]))
    case _ => x
  }

  function ShownMeaning(x: Meaning): Meaning
    decreases x
  {
    match x
    case NumberMeaning(n) => MeaningOf(ShownNumber(n))
    case ListMeaning(es) => ListMeaning(seq(|es|, i requires 0 <= i < |es| => ShownMeaning(es[i])))
    case MapMeaning(ms) => MapMeaning(map k | k in ms :: ShownMeaning(ms[k]))
    case _ => x
  }

  /** All of a payload's meaning that can reach its canonical string. */
  function Visible(x: Meaning): Meaning { ShownMeaning(WithoutProto(x)) }

  /** Every number prints as itself and no key is `__proto__`. */
  predicate Plain(x: Meaning)
    decreases x
  {
    match x
    case NumberMeaning(n) => n.Zero? || n.Finite?
    case ListMeaning(es) => forall i :: 0 <= i < |es| ==> Plain(es[i])
    case MapMeaning(ms) => PROTO !in ms && forall k :: k in ms ==> Plain(ms[k])
    case _ => true
  }
}
