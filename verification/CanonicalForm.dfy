/** sortKeysDeep is a normal form, and canonical strings agree exactly when requests do. */
module CanonicalForm {
  import opened Wrappers
  import opened Utf16
  import opened Decimal
  import opened Json
  import opened JsonRoundTrip
  import opened Canonicalization

  // ---------- The key order ----------

  lemma KeyLessTotal(a: Text, b: Text)
    ensures KeyLess(a, b) || KeyLess(b, a) || a == b
    ensures !(KeyLess(a, b) && KeyLess(b, a))
    ensures KeyLess(a, b) ==> a != b
  {
    UnitLessTotal(a, b);
    if IsArrayIndex(a) && IsArrayIndex(b) {
      NumeralOfValue(a);
      NumeralOfValue(b);
    }
  }

  lemma KeyLessTransitive(a: Text, b: Text, c: Text)
    requires KeyLess(a, b) && KeyLess(b, c)
    ensures KeyLess(a, c)
  {
    if !IsArrayIndex(a) && !IsArrayIndex(b) && !IsArrayIndex(c) {
      UnitLessTransitive(a, b, c);
    }
  }

  lemma SortedKeysDistinct(ms: seq<Member>)
    requires SortedKeys(ms)
    ensures DistinctKeys(ms)
  {
    forall i, j | 0 <= i < j < |ms| ensures ms[i].key != ms[j].key {
      KeyLessTotal(ms[i].key, ms[j].key);
    }
  }

  // ---------- Sorting and assigning keep the members ----------

  predicate SortedByUnits(ms: seq<Member>) {
    forall i, j :: 0 <= i < j < |ms| ==> UnitLess(ms[i].key, ms[j].key)
  }

  lemma {:induction false} InsertSortedKeeps(m: Member, ms: seq<Member>)
    requires SortedByUnits(ms) && !HasKey(ms, m.key)
    ensures SortedByUnits(InsertSorted(m, ms))
    ensures forall x :: x in InsertSorted(m, ms) <==> x == m || x in ms
  {
    if ms != [] {
      UnitLessTotal(m.key, ms[0].key);
      assert ms[0] in ms;
      if UnitLess(m.key, ms[0].key) {
        forall j | 0 < j < |ms| ensures UnitLess(m.key, ms[j].key) {
          UnitLessTransitive(m.key, ms[0].key, ms[j].key);
        }
      } else {
        assert forall x :: x in ms <==> x == ms[0] || x in ms[1..];
        InsertSortedKeeps(m, ms[1..]);
        var r := InsertSorted(m, ms[1..]);
        forall j | 0 <= j < |r| ensures UnitLess(ms[0].key, r[j].key) {
          assert r[j] in r;
          assert r[j] == m || r[j] in ms[1..];
        }
      }
    }
  }

  lemma {:induction false} SortByKeyKeeps(ms: seq<Member>)
    requires DistinctKeys(ms)
    ensures SortedByUnits(SortByKey(ms))
    ensures forall x :: x in SortByKey(ms) <==> x in ms
  {
    if ms != [] {
      SortByKeyKeeps(ms[1..]);
      assert forall x :: x in ms <==> x == ms[0] || x in ms[1..];
      assert !HasKey(ms[1..], ms[0].key);
      InsertSortedKeeps(ms[0], SortByKey(ms[1..]));
    }
  }

  lemma {:induction false} InsertIndexKeeps(ms: seq<Member>, m: Member)
    requires SortedKeys(ms) && !HasKey(ms, m.key) && IsArrayIndex(m.key)
    ensures SortedKeys(InsertIndex(ms, m))
    ensures forall x :: x in InsertIndex(ms, m) <==> x == m || x in ms
  {
    if ms != [] {
      assert ms[0] in ms;
      KeyLessTotal(m.key, ms[0].key);
      if KeyLess(m.key, ms[0].key) {
        forall j | 0 < j < |ms| ensures KeyLess(m.key, ms[j].key) {
          KeyLessTransitive(m.key, ms[0].key, ms[j].key);
        }
      } else {
        assert forall x :: x in ms <==> x == ms[0] || x in ms[1..];
        InsertIndexKeeps(ms[1..], m);
        var r := InsertIndex(ms[1..], m);
        forall j | 0 <= j < |r| ensures KeyLess(ms[0].key, r[j].key) {
          assert r[j] in r;
          assert r[j] == m || r[j] in ms[1..];
        }
      }
    }
  }

  /** Assigning a key after all the smaller ones keeps the object in its fixed order. */
  lemma AssignKeeps(acc: seq<Member>, m: Member)
    requires SortedKeys(acc)
    requires forall x :: x in acc ==> UnitLess(x.key, m.key)
    ensures SortedKeys(Assign(acc, m))
    ensures forall x :: x in Assign(acc, m) <==> x in acc || (x == m && m.key != PROTO)
  {
    forall x | x in acc ensures x.key != m.key {
      UnitLessTotal(x.key, m.key);
    }
    if m.key != PROTO && IsArrayIndex(m.key) {
      InsertIndexKeeps(acc, m);
    }
  }

  lemma {:induction false} AssignAllKeeps(acc: seq<Member>, ms: seq<Member>)
    requires SortedKeys(acc) && SortedByUnits(ms)
    requires forall x, y :: x in acc && y in ms ==> UnitLess(x.key, y.key)
    ensures SortedKeys(AssignAll(acc, ms))
    ensures forall x :: x in AssignAll(acc, ms) <==> x in acc || (x in ms && x.key != PROTO)
    decreases |ms|
  {
    if ms != [] {
      var m := ms[0];
      assert m in ms;
      AssignKeeps(acc, m);
      assert forall x :: x in ms <==> x == m || x in ms[1..];
      forall x, y | x in Assign(acc, m) && y in ms[1..] ensures UnitLess(x.key, y.key) {
        var j :| 0 <= j < |ms[1..]| && ms[1..][j] == y;
        assert UnitLess(ms[0].key, ms[j + 1].key);
        assert y in ms;
      }
      AssignAllKeeps(Assign(acc, m), ms[1..]);
    }
  }

  // ---------- The meaning of a member list ----------

  ghost predicate Holds(ms: seq<Member>, key: Text, x: Meaning) {
    exists m :: m in ms && m.key == key && MeaningOf(m.value) == x
  }

  lemma {:induction false} MembersMeaningHolds(ms: seq<Member>, key: Text, x: Meaning)
    requires DistinctKeys(ms)
    ensures Holds(ms, key, x) <==> key in MembersMeaning(ms) && MembersMeaning(ms)[key] == x
  {
    if ms != [] {
      var tail := ms[1..];
      MembersMeaningHolds(tail, key, x);
      assert forall m :: m in ms <==> m == ms[0] || m in tail;
      if key == ms[0].key {
        forall m | m in tail ensures m.key != key {
          var j :| 0 <= j < |tail| && tail[j] == m;
          assert ms[j + 1] == m;
        }
        if MeaningOf(ms[0].value) == x {
          assert ms[0] in ms;
        }
      }
    }
  }

  lemma HasKeyInMeaning(ms: seq<Member>, key: Text)
    requires DistinctKeys(ms)
    ensures HasKey(ms, key) <==> key in MembersMeaning(ms)
  {
    if HasKey(ms, key) {
      var m :| m in ms && m.key == key;
      MembersMeaningHolds(ms, key, MeaningOf(m.value));
    }
    if key in MembersMeaning(ms) {
      MembersMeaningHolds(ms, key, MembersMeaning(ms)[key]);
    }
  }

  // ---------- sortKeysDeep is a normal form ----------

  /** The members of a sorted object: the same keys but `__proto__`, each value sorted in turn. */
  lemma SortedMembers(ms: seq<Member>)
    requires DistinctKeys(ms)
    ensures var out := SortKeysDeep(Obj(ms));
            out.Obj? && SortedKeys(out.members)
            && (forall x :: x in out.members ==>
                 x.key != PROTO && exists m :: m in ms && m.key == x.key && x.value == SortKeysDeep(m.value))
            && (forall m :: m in ms && m.key != PROTO ==> Member(m.key, SortKeysDeep(m.value)) in out.members)
  {
    var vs := seq(|ms|, i requires 0 <= i < |ms| => Member(ms[i].key, SortKeysDeep(ms[i].value)));
    assert SortKeysDeep(Obj(ms)) == Obj(AssignAll([], SortByKey(vs)));
    SortByKeyKeeps(vs);
    AssignAllKeeps([], SortByKey(vs));
    forall m | m in ms ensures Member(m.key, SortKeysDeep(m.value)) in vs {
      var i :| 0 <= i < |ms| && ms[i] == m;
      assert vs[i] in vs;
    }
    forall x | x in vs ensures exists m :: m in ms && m.key == x.key && x.value == SortKeysDeep(m.value) {
      var i :| 0 <= i < |vs| && vs[i] == x;
      assert ms[i] in ms;
    }
  }

  /** Sorting lists every object in the fixed order, at every depth. */
  lemma {:induction false} SortKeysDeepNormal(v: Json)
    requires WellFormed(v)
    ensures Normal(SortKeysDeep(v))
    decreases v
  {
    match v
    case Arr(es) =>
      forall i | 0 <= i < |es| ensures Normal(SortKeysDeep(es[i])) {
        SortKeysDeepNormal(es[i]);
      }
    case Obj(ms) =>
      SortedMembers(ms);
      var out := SortKeysDeep(v).members;
      forall i | 0 <= i < |out| ensures Normal(out[i].value) {
        assert out[i] in out;
        var m :| m in ms && m.key == out[i].key && out[i].value == SortKeysDeep(m.value);
        SortKeysDeepNormal(m.value);
      }
    case _ =>
  }

  /** Sorting keeps every key, value and array place at every depth, `__proto__` aside. */
  lemma {:induction false} SortKeysDeepMeaning(v: Json)
    requires WellFormed(v)
    ensures MeaningOf(SortKeysDeep(v)) == WithoutProto(MeaningOf(v))
    decreases v
  {
    match v
    case Arr(es) =>
      forall i | 0 <= i < |es| ensures MeaningOf(SortKeysDeep(es[i])) == WithoutProto(MeaningOf(es[i])) {
        SortKeysDeepMeaning(es[i]);
      }
    case Obj(ms) =>
      SortedMembers(ms);
      forall m | m in ms ensures MeaningOf(SortKeysDeep(m.value)) == WithoutProto(MeaningOf(m.value)) {
        SortKeysDeepMeaning(m.value);
      }
      SortedMembersMeaning(ms, SortKeysDeep(v).members);
    case _ =>
  }

  lemma SortedMembersMeaning(ms: seq<Member>, out: seq<Member>)
    requires DistinctKeys(ms) && SortedKeys(out)
    requires forall x :: x in out ==>
               x.key != PROTO && exists m :: m in ms && m.key == x.key && x.value == SortKeysDeep(m.value)
    requires forall m :: m in ms && m.key != PROTO ==> Member(m.key, SortKeysDeep(m.value)) in out
    requires forall m :: m in ms ==> MeaningOf(SortKeysDeep(m.value)) == WithoutProto(MeaningOf(m.value))
    ensures MapMeaning(MembersMeaning(out)) == WithoutProto(MapMeaning(MembersMeaning(ms)))
  {
    hide SortKeysDeep, MeaningOf, MembersMeaning, PROTO, IsArrayIndex, KeyLess;
    SortedKeysDistinct(out);
    var a, b := MembersMeaning(out), MembersMeaning(ms);
    forall k ensures k in a <==> k in b && k != PROTO
             ensures k in a ==> a[k] == WithoutProto(b[k])
    {
      HasKeyInMeaning(out, k);
      HasKeyInMeaning(ms, k);
      if HasKey(out, k) {
        var x :| x in out && x.key == k;
        var m :| m in ms && m.key == x.key && x.value == SortKeysDeep(m.value);
        MembersMeaningHolds(out, k, MeaningOf(x.value));
        MembersMeaningHolds(ms, k, MeaningOf(m.value));
      }
    }
  }

  /** Normal values that mean the same are the same. */
  lemma {:induction false} NormalUnique(a: Json, b: Json)
    requires Normal(a) && Normal(b)
    requires MeaningOf(a) == MeaningOf(b)
    ensures a == b
    decreases a
  {
    match a
    case Arr(es) =>
      var fs := b.elems;
      assert MeaningOf(a).elems == MeaningOf(b).elems;
      forall i | 0 <= i < |es| ensures es[i] == fs[i] {
        assert MeaningOf(a).elems[i] == MeaningOf(es[i]) && MeaningOf(b).elems[i] == MeaningOf(fs[i]);
        NormalUnique(es[i], fs[i]);
      }
    case Obj(ms) =>
      NormalUniqueMembers(ms, b.members);
    case _ =>
  }

  lemma {:induction false} NormalUniqueMembers(ms: seq<Member>, ns: seq<Member>)
    requires SortedKeys(ms) && SortedKeys(ns)
    requires forall i :: 0 <= i < |ms| ==> Normal(ms[i].value)
    requires forall i :: 0 <= i < |ns| ==> Normal(ns[i].value)
    requires MembersMeaning(ms) == MembersMeaning(ns)
    ensures ms == ns
    decreases ms
  {
    SortedKeysDistinct(ms);
    SortedKeysDistinct(ns);
    if ms == [] {
      EmptyMeaning(ns);
    } else {
      var k := ms[0].key;
      assert k in MembersMeaning(ms);
      assert ns != [];
      FirstKey(ms, ns);
      FirstKey(ns, ms);
      KeyLessTotal(k, ns[0].key);
      NormalUnique(ms[0].value, ns[0].value);
      TailMeaning(ms);
      TailMeaning(ns);
      NormalUniqueMembers(ms[1..], ns[1..]);
    }
  }

  lemma EmptyMeaning(ms: seq<Member>)
    ensures MembersMeaning(ms) == map[] <==> ms == []
  {
    if ms != [] {
      assert ms[0].key in MembersMeaning(ms);
    }
  }

  lemma FirstKey(ms: seq<Member>, ns: seq<Member>)
    requires ms != [] && ns != [] && SortedKeys(ns) && DistinctKeys(ns)
    requires ms[0].key in MembersMeaning(ns)
    ensures ns[0].key == ms[0].key || KeyLess(ns[0].key, ms[0].key)
  {
    HasKeyInMeaning(ns, ms[0].key);
  }

  lemma TailMeaning(ms: seq<Member>)
    requires ms != [] && DistinctKeys(ms)
    ensures MembersMeaning(ms[1..]) == MembersMeaning(ms) - {ms[0].key}
    ensures MembersMeaning(ms)[ms[0].key] == MeaningOf(ms[0].value)
  {
    HasKeyInMeaning(ms[1..], ms[0].key);
  }

  lemma {:induction false} NormalKeepsAll(v: Json)
    requires Normal(v)
    ensures WellFormed(v) && WithoutProto(MeaningOf(v)) == MeaningOf(v)
    decreases v
  {
    match v
    case Arr(es) =>
      forall i | 0 <= i < |es| ensures WellFormed(es[i]) && WithoutProto(MeaningOf(es[i])) == MeaningOf(es[i]) {
        NormalKeepsAll(es[i]);
      }
    case Obj(ms) =>
      SortedKeysDistinct(ms);
      forall i | 0 <= i < |ms|
        ensures WellFormed(ms[i].value) && WithoutProto(MeaningOf(ms[i].value)) == MeaningOf(ms[i].value)
      {
        NormalKeepsAll(ms[i].value);
      }
      NothingToDrop(ms);
    case _ =>
  }

  lemma NothingToDrop(ms: seq<Member>)
    requires DistinctKeys(ms) && !HasKey(ms, PROTO)
    requires forall i :: 0 <= i < |ms| ==> WithoutProto(MeaningOf(ms[i].value)) == MeaningOf(ms[i].value)
    ensures WithoutProto(MapMeaning(MembersMeaning(ms))) == MapMeaning(MembersMeaning(ms))
  {
    hide MeaningOf, MembersMeaning, PROTO;
    var b := MembersMeaning(ms);
    forall k | k in b ensures k != PROTO && WithoutProto(b[k]) == b[k] {
      MembersMeaningHolds(ms, k, b[k]);
    }
    NoProtoKey(b);
  }

  lemma NoProtoKey(b: map<Text, Meaning>)
    requires forall k :: k in b ==> k != PROTO && WithoutProto(b[k]) == b[k]
    ensures WithoutProto(MapMeaning(b)) == MapMeaning(b)
  {
    hide PROTO;
    assert WithoutProto(MapMeaning(b)).members == b;
  }

  /** Sorting a second time changes nothing. */
  lemma SortKeysDeepIdempotent(v: Json)
    requires WellFormed(v)
    ensures SortKeysDeep(SortKeysDeep(v)) == SortKeysDeep(v)
  {
    var w := SortKeysDeep(v);
    SortKeysDeepNormal(v);
    NormalKeepsAll(w);
    SortKeysDeepNormal(w);
    SortKeysDeepMeaning(w);
    NormalUnique(SortKeysDeep(w), w);
  }

  /** Reordering keys, at any depth, does not change the sorted value. */
  lemma SortKeysDeepIgnoresOrder(v: Json, w: Json)
    requires WellFormed(v) && WellFormed(w)
    requires MeaningOf(v) == MeaningOf(w)
    ensures SortKeysDeep(v) == SortKeysDeep(w)
  {
    SortKeysDeepNormal(v);
    SortKeysDeepNormal(w);
    SortKeysDeepMeaning(v);
    SortKeysDeepMeaning(w);
    NormalUnique(SortKeysDeep(v), SortKeysDeep(w));
  }

  // ---------- What printing shows of a normal value ----------

  lemma {:induction false} ShownNormal(v: Json)
    requires Normal(v)
    ensures Normal(Shown(v))
    decreases v
  {
    match v
    case Arr(es) =>
      forall i | 0 <= i < |es| ensures Normal(Shown(es[i])) {
        ShownNormal(es[i]);
      }
    case Obj(ms) =>
      forall i | 0 <= i < |ms| ensures Normal(Shown(ms[i].value)) && ShownMembers(ms)[i].key != PROTO {
        assert ms[i] in ms;
        ShownNormal(ms[i].value);
      }
    case _ =>
  }

  lemma {:induction false} ShownKeepsMeaning(v: Json)
    ensures MeaningOf(Shown(v)) == ShownMeaning(MeaningOf(v))
    decreases v
  {
    match v
    case Arr(es) =>
      forall i | 0 <= i < |es| ensures MeaningOf(Shown(es[i])) == ShownMeaning(MeaningOf(es[i])) {
        ShownKeepsMeaning(es[i]);
      }
    case Obj(ms) =>
      ShownMembersKeepMeaning(ms);
    case _ =>
  }

  lemma {:induction false} ShownMembersKeepMeaning(ms: seq<Member>)
    ensures MapMeaning(MembersMeaning(ShownMembers(ms))) == ShownMeaning(MapMeaning(MembersMeaning(ms)))
    decreases ms
  {
    hide Shown, ShownMeaning, MeaningOf;
    if ms == [] {
      ShownEmpty();
    } else {
      ShownKeepsMeaning(ms[0].value);
      ShownMembersKeepMeaning(ms[1..]);
      assert ShownMembers(ms)[1..] == ShownMembers(ms[1..]);
      ShownUpdate(MembersMeaning(ms[1..]), ms[0].key, MeaningOf(ms[0].value));
    }
  }

  lemma ShownEmpty()
    ensures ShownMeaning(MapMeaning(map[])) == MapMeaning(map[])
  {
  }

  lemma ShownUpdate(m: map<Text, Meaning>, k: Text, x: Meaning)
    ensures ShownMeaning(MapMeaning(m)).MapMeaning?
    ensures ShownMeaning(MapMeaning(m[k := x])) == MapMeaning(ShownMeaning(MapMeaning(m)).members[k := ShownMeaning(x)])
  {
    assert ShownMeaning(MapMeaning(m[k := x])).members == ShownMeaning(MapMeaning(m)).members[k := ShownMeaning(x)];
  }

  // ---------- Canonical strings ----------

  lemma SortedShown(v: Json)
    requires WellFormed(v)
    ensures Normal(Shown(SortKeysDeep(v)))
    ensures MeaningOf(Shown(SortKeysDeep(v))) == Visible(MeaningOf(v))
  {
    SortKeysDeepNormal(v);
    SortKeysDeepMeaning(v);
    ShownNormal(SortKeysDeep(v));
    ShownKeepsMeaning(SortKeysDeep(v));
  }

  /** The sorted payloads of two requests print alike exactly when their visible parts mean the same. */
  lemma SortedShownIff(v: Json, w: Json)
    requires WellFormed(v) && WellFormed(w)
    ensures Shown(SortKeysDeep(v)) == Shown(SortKeysDeep(w)) <==> Visible(MeaningOf(v)) == Visible(MeaningOf(w))
  {
    SortedShown(v);
    SortedShown(w);
    if Visible(MeaningOf(v)) == Visible(MeaningOf(w)) {
      NormalUnique(Shown(SortKeysDeep(v)), Shown(SortKeysDeep(w)));
    }
  }

  ghost predicate SameFixedFields(d: Envelope, e: Envelope) {
    d.agentFromId == e.agentFromId && d.agentToId == e.agentToId && d.sessionId == e.sessionId
    && ShownNumber(d.maxBudget) == ShownNumber(e.maxBudget)
    && d.policyDigest == e.policyDigest && d.nonce == e.nonce
  }

  lemma ShownField(key: Text, f: Field)
    ensures ShownMembers(FieldMembers(key, f)) == FieldMembers(key, f)
  {
  }

  lemma ShownConcat(a: seq<Member>, b: seq<Member>)
    ensures ShownMembers(a + b) == ShownMembers(a) + ShownMembers(b)
  {
    hide Shown, ShownMembers;
  }

  lemma ShownNormalized(e: Envelope)
    ensures Shown(Normalized(e)) ==
      Obj(ShownMembers(FixedMembers(e)) + FieldMembers(POLICY_DIGEST, e.policyDigest) + FieldMembers(NONCE, e.nonce))
  {
    hide Shown, ShownMembers, FixedMembers, FieldMembers, SortKeysDeep;
    var a, b, c := FixedMembers(e), FieldMembers(POLICY_DIGEST, e.policyDigest), FieldMembers(NONCE, e.nonce);
    ShownField(POLICY_DIGEST, e.policyDigest);
    ShownField(NONCE, e.nonce);
    ShownConcat(a + b, c);
    ShownConcat(a, b);
    ShownObject(a + b + c);
  }

  lemma ShownObject(ms: seq<Member>)
    ensures Shown(Obj(ms)) == Obj(ShownMembers(ms))
  {
  }

  lemma ShownFixed(d: Envelope, e: Envelope)
    ensures ShownMembers(FixedMembers(d)) == ShownMembers(FixedMembers(e))
       <==> d.agentFromId == e.agentFromId && d.agentToId == e.agentToId && d.sessionId == e.sessionId
            && Shown(SortKeysDeep(d.requestPayload)) == Shown(SortKeysDeep(e.requestPayload))
            && ShownNumber(d.maxBudget) == ShownNumber(e.maxBudget)
  {
    hide SortKeysDeep;
    var s, t := ShownMembers(FixedMembers(d)), ShownMembers(FixedMembers(e));
    assert s == t <==> s[0] == t[0] && s[1] == t[1] && s[2] == t[2] && s[3] == t[3] && s[4] == t[4];
  }

  lemma FieldsInjective(d1: Field, n1: Field, d2: Field, n2: Field)
    requires FieldMembers(POLICY_DIGEST, d1) + FieldMembers(NONCE, n1)
          == FieldMembers(POLICY_DIGEST, d2) + FieldMembers(NONCE, n2)
    ensures d1 == d2 && n1 == n2
  {
    var s := FieldMembers(POLICY_DIGEST, d1) + FieldMembers(NONCE, n1);
    var t := FieldMembers(POLICY_DIGEST, d2) + FieldMembers(NONCE, n2);
    assert |POLICY_DIGEST| == 12 && |NONCE| == 5;
    if s != [] {
      assert s[0] == t[0] && s[|s| - 1] == t[|t| - 1];
    }
  }

  lemma FieldsApart(p: seq<Member>, q: seq<Member>, d1: Field, d2: Field, n1: Field, n2: Field)
    requires |p| == |q|
    ensures p + FieldMembers(POLICY_DIGEST, d1) + FieldMembers(NONCE, n1)
         == q + FieldMembers(POLICY_DIGEST, d2) + FieldMembers(NONCE, n2)
        <==> p == q && d1 == d2 && n1 == n2
  {
    hide FieldMembers;
    var f := FieldMembers(POLICY_DIGEST, d1) + FieldMembers(NONCE, n1);
    var g := FieldMembers(POLICY_DIGEST, d2) + FieldMembers(NONCE, n2);
    assert p + FieldMembers(POLICY_DIGEST, d1) + FieldMembers(NONCE, n1) == p + f;
    assert q + FieldMembers(POLICY_DIGEST, d2) + FieldMembers(NONCE, n2) == q + g;
    if p + f == q + g {
      assert (p + f)[..|p|] == p && (q + g)[..|p|] == q;
      assert (p + f)[|p|..] == f && (q + g)[|p|..] == g;
      FieldsInjective(d1, n1, d2, n2);
    }
  }

  /** Two requests have one canonical string exactly when their fields and their visible payloads agree. */
  lemma CanonicalIff(d: Envelope, e: Envelope)
    requires WellFormed(d.requestPayload) && WellFormed(e.requestPayload)
    ensures CanonicalizeSignedRequest(d) == CanonicalizeSignedRequest(e)
       <==> SameFixedFields(d, e)
            && Visible(MeaningOf(d.requestPayload)) == Visible(MeaningOf(e.requestPayload))
  {
    hide Print, Shown, SortKeysDeep, MeaningOf, ShownMembers, FixedMembers, Visible, ShownNumber, Normalized;
    PrintInjective(Normalized(d), Normalized(e));
    ShownNormalized(d);
    ShownNormalized(e);
    ShownFixed(d, e);
    ShownLength(d, e);
    FieldsApart(ShownMembers(FixedMembers(d)), ShownMembers(FixedMembers(e)), d.policyDigest, e.policyDigest, d.nonce,
                e.nonce);
    SortedShownIff(d.requestPayload, e.requestPayload);
  }

  lemma ShownLength(d: Envelope, e: Envelope)
    ensures |ShownMembers(FixedMembers(d))| == |ShownMembers(FixedMembers(e))|
  {
  }

  /** The string reads back as the normalized envelope, whatever text follows it. */
  lemma ReadCanonical(e: Envelope, rest: Text)
    ensures ReadValue(CanonicalizeSignedRequest(e) + rest) == Some((Shown(Normalized(e)), rest))
  {
    ReadPrint(Normalized(e), rest);
  }

  /** On plain payloads the canonical string says exactly what the request means. */
  lemma CanonicalPlainIff(d: Envelope, e: Envelope)
    requires WellFormed(d.requestPayload) && WellFormed(e.requestPayload)
    requires Plain(MeaningOf(d.requestPayload)) && Plain(MeaningOf(e.requestPayload))
    ensures CanonicalizeSignedRequest(d) == CanonicalizeSignedRequest(e)
       <==> SameFixedFields(d, e) && MeaningOf(d.requestPayload) == MeaningOf(e.requestPayload)
  {
    CanonicalIff(d, e);
    PlainIff(MeaningOf(d.requestPayload));
    PlainIff(MeaningOf(e.requestPayload));
  }

  /** A payload means all that its canonical string shows exactly when it is plain. */
  lemma {:induction false} PlainIff(x: Meaning)
    ensures Visible(x) == x <==> Plain(x)
    decreases x
  {
    match x
    case ListMeaning(es) =>
      forall i | 0 <= i < |es| ensures Visible(es[i]) == es[i] <==> Plain(es[i]) {
        PlainIff(es[i]);
      }
      if Visible(x) == x {
        forall i | 0 <= i < |es| ensures Visible(es[i]) == es[i] {
          assert Visible(x).elems[i] == es[i];
        }
      }
    case MapMeaning(ms) =>
      forall k | k in ms ensures Visible(ms[k]) == ms[k] <==> Plain(ms[k]) {
        PlainIff(ms[k]);
      }
      PlainMap(ms);
    case _ =>
  }

  lemma PlainMap(ms: map<Text, Meaning>)
    requires forall k :: k in ms ==> (Visible(ms[k]) == ms[k] <==> Plain(ms[k]))
    ensures Visible(MapMeaning(ms)) == MapMeaning(ms) <==> Plain(MapMeaning(ms))
  {
    hide PROTO;
    var seen := Visible(MapMeaning(ms)).members;
    assert forall k :: k in seen <==> k in ms && k != PROTO;
    assert forall k :: k in seen ==> seen[k] == Visible(ms[k]);
  }

  lemma {:induction false} VisiblePlain(x: Meaning)
    ensures Plain(Visible(x))
    decreases x
  {
    match x
    case ListMeaning(es) =>
      forall i | 0 <= i < |es| ensures Plain(Visible(es[i])) {
        VisiblePlain(es[i]);
      }
    case MapMeaning(ms) =>
      forall k | k in ms ensures Plain(Visible(ms[k])) {
        VisiblePlain(ms[k]);
      }
    case _ =>
  }

  /** Every payload that is not plain shares its string with one that means something else. */
  lemma NotPlainCollides(e: Envelope)
    requires WellFormed(e.requestPayload) && !Plain(MeaningOf(e.requestPayload))
    ensures var w := Shown(SortKeysDeep(e.requestPayload));
            WellFormed(w) && MeaningOf(w) != MeaningOf(e.requestPayload)
            && CanonicalizeSignedRequest(e.(requestPayload := w)) == CanonicalizeSignedRequest(e)
  {
    hide CanonicalizeSignedRequest, Shown, SortKeysDeep, MeaningOf, Visible, Plain;
    var v := e.requestPayload;
    var w := Shown(SortKeysDeep(v));
    SortedShown(v);
    NormalKeepsAll(w);
    VisiblePlain(MeaningOf(v));
    PlainIff(MeaningOf(w));
    PlainIff(MeaningOf(v));
    CanonicalIff(e.(requestPayload := w), e);
  }

  /** `{"__proto__":null}` prints as `{}`, and a number that overflows (`1e999`) as `null`. */
  lemma CollisionExamples(e: Envelope)
    ensures CanonicalizeSignedRequest(e.(requestPayload := Obj([Member(PROTO, Null)])))
         == CanonicalizeSignedRequest(e.(requestPayload := Obj([])))
    ensures CanonicalizeSignedRequest(e.(requestPayload := Num(NonFinite)))
         == CanonicalizeSignedRequest(e.(requestPayload := Null))
    ensures MeaningOf(Obj([Member(PROTO, Null)])) != MeaningOf(Obj([])) && MeaningOf(Num(NonFinite)) != MeaningOf(Null)
  {
    hide CanonicalizeSignedRequest;
    EmptyMeaning([Member(PROTO, Null)]);
    assert WithoutProto(MeaningOf(Obj([Member(PROTO, Null)]))) == WithoutProto(MeaningOf(Obj([])));
    CanonicalIff(e.(requestPayload := Obj([Member(PROTO, Null)])), e.(requestPayload := Obj([])));
    CanonicalIff(e.(requestPayload := Num(NonFinite)), e.(requestPayload := Null));
  }
}
