/** The DID grammar of src/common/validators/field.validators.ts: /^did:[a-z0-9]+:[a-zA-Z0-9._%-]+$/ */
module Did {
  import opened Utf16

  const COLON: Unit := 0x3A

  const PREFIX := Units("did:")

  predicate IsDigit(c: Unit) { 0x30 <= c <= 0x39 }

  predicate IsLower(c: Unit) { 0x61 <= c <= 0x7A }

  predicate IsUpper(c: Unit) { 0x41 <= c <= 0x5A }

  predicate IsMethodUnit(c: Unit) { IsLower(c) || IsDigit(c) }

  /** a-z, A-Z, 0-9 and . _ % - */
  predicate IsIdUnit(c: Unit) {
    IsLower(c) || IsUpper(c) || IsDigit(c) || c == 0x2E || c == 0x5F || c == 0x25 || c == 0x2D
  }

  /** The colon at `k` ends the method name. */
  predicate SplitsAt(s: Text, k: nat) {
    4 < k < |s| - 1 && s[k] == COLON
    && (forall i :: 4 <= i < k ==> IsMethodUnit(s[i]))
    && (forall i :: k < i < |s| ==> IsIdUnit(s[i]))
  }

  predicate IsDid(s: Text) { |s| >= 4 && s[..4] == PREFIX && exists k :: 4 < k < |s| && SplitsAt(s, k) }

  /** A DID has exactly two colons, so what follows `did:` and the next colon cannot hide a third. */
  lemma DidColons(s: Text) returns (k: nat)
    requires IsDid(s)
    ensures 4 < k < |s| && s[3] == s[k] == COLON
    ensures forall i :: 0 <= i < |s| && i != 3 && i != k ==> s[i] != COLON
  {
    k :| 4 < k < |s| && SplitsAt(s, k);
    assert forall i :: 0 <= i < 4 ==> s[i] == s[..4][i];
  }

  /** `${agentId}:${nonce}` determines both parts when the agent is a DID. */
  lemma KeyInjective(a: Text, m: Text, b: Text, n: Text)
    requires IsDid(a) && IsDid(b)
    requires a + [COLON] + m == b + [COLON] + n
    ensures a == b && m == n
  {
    var key := a + [COLON] + m;
    var j := DidColons(a);
    var k := DidColons(b);
    assert forall i :: 0 <= i < |a| ==> key[i] == a[i];
    assert forall i :: 0 <= i < |b| ==> (b + [COLON] + n)[i] == b[i];
    assert key[|a|] == COLON && (b + [COLON] + n)[|b|] == COLON;
    assert j == k;
    assert |a| == |b|;
    assert key[..|a|] == a && (b + [COLON] + n)[..|b|] == b;
    assert key[|a| + 1..] == m && (b + [COLON] + n)[|b| + 1..] == n;
  }
}
