/** src/modules/policy/policy-evaluator.ts and policy-evaluator.service.ts: access decisions. */
module Policy {
  import opened Wrappers
  import opened Utf16
  import opened Wildcard

  datatype Effect = Allow | Deny

  /** A list the source may find undefined is empty here: every branch treats the two alike. */
  datatype AccessRule = AccessRule(effect: Effect, subjects: seq<Text>, actions: seq<Text>, resources: seq<Text>)

  datatype Context = Context(subject: Text, action: Text, resource: Text)

  datatype Ruleset = Ruleset(allowlist: seq<Text>, denylist: seq<Text>, accessRules: seq<AccessRule>)

  datatype Reason =
    | NoAccessConstraints
    | SubjectOnDenylist
    | MatchedDenyRule
    | MatchedAllowRule
    | SubjectOnAllowlist
    | NoMatchingAllowRule
    | NoActivePolicy

  datatype Verdict = Verdict(allowed: bool, reason: Reason)

  predicate Matches(pattern: Text, value: Text) { MatchWildcard(pattern, value) == Some(true) }

  predicate SomeMatches(patterns: seq<Text>, value: Text) { exists p :: p in patterns && Matches(p, value) }

  predicate MatchesAny(patterns: seq<Text>, value: Text) { patterns == [] || SomeMatches(patterns, value) }

  predicate RuleApplies(rule: AccessRule, ctx: Context) {
    MatchesAny(rule.subjects, ctx.subject) && MatchesAny(rule.actions, ctx.action)
    && MatchesAny(rule.resources, ctx.resource)
  }

  function Matching(rules: seq<AccessRule>, ctx: Context): seq<AccessRule> {
    if rules == [] then []
    else if RuleApplies(rules[0], ctx) then [rules[0]] + Matching(rules[1..], ctx)
    else Matching(rules[1..], ctx)
  }

  function Find(rules: seq<AccessRule>, effect: Effect): Option<AccessRule> {
    if rules == [] then None else if rules[0].effect == effect then Some(rules[0]) else Find(rules[1..], effect)
  }

  function EvaluatePolicyAccess(rules: Ruleset, ctx: Context): Verdict {
    if rules.accessRules == [] && rules.allowlist == [] && rules.denylist == [] then Verdict(true, NoAccessConstraints)
    else if SomeMatches(rules.denylist, ctx.subject) then Verdict(false, SubjectOnDenylist)
    else
      var matching := Matching(rules.accessRules, ctx);
      if Find(matching, Deny).Some? then Verdict(false, MatchedDenyRule)
      else if Find(matching, Allow).Some? then Verdict(true, MatchedAllowRule)
      else if SomeMatches(rules.allowlist, ctx.subject) then Verdict(true, SubjectOnAllowlist)
      else Verdict(false, NoMatchingAllowRule)
  }

  // ---------- The documented precedence ----------

  predicate Constrained(r: Ruleset) { r.accessRules != [] || r.allowlist != [] || r.denylist != [] }

  /** Some rule with this effect applies, wherever it stands. */
  predicate RuleMatches(r: Ruleset, effect: Effect, ctx: Context) {
    exists rule :: rule in r.accessRules && rule.effect == effect && RuleApplies(rule, ctx)
  }

  predicate Denied(r: Ruleset, ctx: Context) { SomeMatches(r.denylist, ctx.subject) || RuleMatches(r, Deny, ctx) }

  predicate Granted(r: Ruleset, ctx: Context) { RuleMatches(r, Allow, ctx) || SomeMatches(r.allowlist, ctx.subject) }

  lemma {:induction false} FindIffRuleMatches(rules: seq<AccessRule>, effect: Effect, ctx: Context)
    ensures Find(Matching(rules, ctx), effect).Some?
       <==> exists rule :: rule in rules && rule.effect == effect && RuleApplies(rule, ctx)
  {
    if rules != [] {
      FindIffRuleMatches(rules[1..], effect, ctx);
      assert forall rule :: rule in rules <==> rule == rules[0] || rule in rules[1..];
      assert Matching(rules, ctx) != [] && RuleApplies(rules[0], ctx)
        ==> Matching(rules, ctx)[1..] == Matching(rules[1..], ctx);
    }
  }

  /** Deny beats allow, allow beats the allowlist, and the default is deny once any list is non-empty. */
  lemma VerdictIsPrecedence(r: Ruleset, ctx: Context)
    ensures var v := EvaluatePolicyAccess(r, ctx);
            && (v.allowed <==> !Constrained(r) || (!Denied(r, ctx) && Granted(r, ctx)))
            && (v.reason == NoAccessConstraints <==> !Constrained(r))
            && (v.reason == SubjectOnDenylist <==> SomeMatches(r.denylist, ctx.subject))
            && (v.reason == MatchedDenyRule <==> RuleMatches(r, Deny, ctx) && !SomeMatches(r.denylist, ctx.subject))
            && (v.reason == MatchedAllowRule <==> RuleMatches(r, Allow, ctx) && !Denied(r, ctx))
            && (v.reason == SubjectOnAllowlist <==>
                  SomeMatches(r.allowlist, ctx.subject) && !RuleMatches(r, Allow, ctx) && !Denied(r, ctx))
  {
    hide RuleApplies, SomeMatches;
    FindIffRuleMatches(r.accessRules, Deny, ctx);
    FindIffRuleMatches(r.accessRules, Allow, ctx);
    NothingMatchesNothing(ctx.subject);
  }

  /** The input on which the default is not deny: a ruleset without any entry. */
  lemma UnconstrainedAllows(ctx: Context)
    ensures EvaluatePolicyAccess(Ruleset([], [], []), ctx) == Verdict(true, NoAccessConstraints)
  {
  }

  lemma NothingMatchesNothing(value: Text)
    ensures !SomeMatches([], value)
  {
  }

  // ---------- Order and repetition do not matter ----------

  ghost predicate SameElements<T(!new)>(a: seq<T>, b: seq<T>) { forall x :: x in a <==> x in b }

  ghost predicate SameRule(a: AccessRule, b: AccessRule) {
    a.effect == b.effect && SameElements(a.subjects, b.subjects)
    && SameElements(a.actions, b.actions) && SameElements(a.resources, b.resources)
  }

  ghost predicate SameRuleset(a: Ruleset, b: Ruleset) {
    SameElements(a.allowlist, b.allowlist) && SameElements(a.denylist, b.denylist)
    && (forall x :: x in a.accessRules ==> exists y :: y in b.accessRules && SameRule(x, y))
    && (forall y :: y in b.accessRules ==> exists x :: x in a.accessRules && SameRule(x, y))
  }

  lemma SameElementsEmpty<T(!new)>(a: seq<T>, b: seq<T>)
    requires SameElements(a, b)
    ensures a == [] <==> b == []
  {
    if a != [] { assert a[0] in b; }
    if b != [] { assert b[0] in a; }
  }

  lemma SameRuleApplies(a: AccessRule, b: AccessRule, ctx: Context)
    requires SameRule(a, b)
    ensures RuleApplies(a, ctx) <==> RuleApplies(b, ctx)
  {
    hide Matches;
    SameElementsEmpty(a.subjects, b.subjects);
    SameElementsEmpty(a.actions, b.actions);
    SameElementsEmpty(a.resources, b.resources);
  }

  lemma SameRuleMatches(a: Ruleset, b: Ruleset, effect: Effect, ctx: Context)
    requires SameRuleset(a, b)
    ensures RuleMatches(a, effect, ctx) <==> RuleMatches(b, effect, ctx)
  {
    hide RuleApplies, SameElements;
    forall x, y | x in a.accessRules && y in b.accessRules && SameRule(x, y)
      ensures RuleApplies(x, ctx) <==> RuleApplies(y, ctx)
    {
      SameRuleApplies(x, y, ctx);
    }
  }

  lemma SameListMatches(a: seq<Text>, b: seq<Text>, value: Text)
    requires SameElements(a, b)
    ensures SomeMatches(a, value) <==> SomeMatches(b, value)
  {
    hide Matches;
  }

  lemma RulesFound(a: seq<AccessRule>, b: seq<AccessRule>)
    requires forall x :: x in a ==> exists y :: y in b && SameRule(x, y)
    requires forall y :: y in b ==> exists x :: x in a && SameRule(x, y)
    ensures a == [] <==> b == []
  {
    hide SameRule;
    if a != [] {
      assert a[0] in a;
    }
    if b != [] {
      assert b[0] in b;
    }
  }

  lemma SameConstrained(a: Ruleset, b: Ruleset)
    requires SameRuleset(a, b)
    ensures Constrained(a) <==> Constrained(b)
  {
    hide SameRule;
    SameElementsEmpty(a.allowlist, b.allowlist);
    SameElementsEmpty(a.denylist, b.denylist);
    RulesFound(a.accessRules, b.accessRules);
  }

  /** Permuting or repeating the entries of any list changes neither the verdict nor its reason. */
  lemma VerdictIgnoresOrder(a: Ruleset, b: Ruleset, ctx: Context)
    requires SameRuleset(a, b)
    ensures EvaluatePolicyAccess(a, ctx) == EvaluatePolicyAccess(b, ctx)
  {
    hide EvaluatePolicyAccess, RuleMatches, SomeMatches, Constrained;
    SameConstrained(a, b);
    SameRuleMatches(a, b, Deny, ctx);
    SameRuleMatches(a, b, Allow, ctx);
    SameListMatches(a.allowlist, b.allowlist, ctx.subject);
    SameListMatches(a.denylist, b.denylist, ctx.subject);
    VerdictIsPrecedence(a, ctx);
    VerdictIsPrecedence(b, ctx);
    ReasonIsOneOfSix(a, ctx);
    ReasonIsOneOfSix(b, ctx);
  }

  lemma ReasonIsOneOfSix(r: Ruleset, ctx: Context)
    ensures EvaluatePolicyAccess(r, ctx).reason != NoActivePolicy
  {
  }

  // ---------- Adding entries ----------

  /** `after` has every entry of `before`, in any order, and its new rules all have this effect. */
  ghost predicate AddsRules(before: Ruleset, after: Ruleset, effect: Effect) {
    (forall x :: x in before.accessRules ==> x in after.accessRules)
    && (forall x :: x in after.accessRules ==> x in before.accessRules || x.effect == effect)
  }

  lemma AddsRulesKeeps(before: Ruleset, after: Ruleset, effect: Effect, other: Effect, ctx: Context)
    requires AddsRules(before, after, effect)
    ensures RuleMatches(before, other, ctx) ==> RuleMatches(after, other, ctx)
    ensures effect != other ==> (RuleMatches(after, other, ctx) ==> RuleMatches(before, other, ctx))
  {
    hide RuleApplies;
  }

  /** Adding deny rules or denylist patterns never turns a denial into an allow. */
  lemma DenyEntriesOnlyDeny(before: Ruleset, after: Ruleset, ctx: Context)
    requires AddsRules(before, after, Deny)
    requires forall p :: p in before.denylist ==> p in after.denylist
    requires SameElements(before.allowlist, after.allowlist)
    requires !EvaluatePolicyAccess(before, ctx).allowed
    ensures !EvaluatePolicyAccess(after, ctx).allowed
  {
    hide EvaluatePolicyAccess, RuleMatches, Matches;
    VerdictIsPrecedence(before, ctx);
    VerdictIsPrecedence(after, ctx);
    AddsRulesKeeps(before, after, Deny, Deny, ctx);
    AddsRulesKeeps(before, after, Deny, Allow, ctx);
    StillConstrained(before, after);
  }

  lemma StillConstrained(before: Ruleset, after: Ruleset)
    requires Constrained(before)
    requires forall x :: x in before.accessRules ==> x in after.accessRules
    requires forall p :: p in before.denylist ==> p in after.denylist
    requires forall p :: p in before.allowlist ==> p in after.allowlist
    ensures Constrained(after)
  {
    if before.accessRules != [] { assert before.accessRules[0] in after.accessRules; }
    if before.denylist != [] { assert before.denylist[0] in after.denylist; }
    if before.allowlist != [] { assert before.allowlist[0] in after.allowlist; }
  }

  /**
   * Adding allow rules or allowlist patterns turns an allow into a denial exactly
   * when the ruleset had no constraint before and what it has now does not match.
   */
  lemma AllowEntriesDenyOnlyTheFirstTime(before: Ruleset, after: Ruleset, ctx: Context)
    requires AddsRules(before, after, Allow)
    requires SameElements(before.denylist, after.denylist)
    requires forall p :: p in before.allowlist ==> p in after.allowlist
    ensures EvaluatePolicyAccess(before, ctx).allowed && !EvaluatePolicyAccess(after, ctx).allowed
       <==> !Constrained(before) && Constrained(after) && !Granted(after, ctx)
  {
    hide EvaluatePolicyAccess, RuleMatches, Matches;
    VerdictIsPrecedence(before, ctx);
    VerdictIsPrecedence(after, ctx);
    AddsRulesKeeps(before, after, Allow, Deny, ctx);
    AddsRulesKeeps(before, after, Allow, Allow, ctx);
    if Constrained(before) {
      StillConstrained(before, after);
    } else {
      NoDenyRule(before, ctx);
    }
  }

  lemma NoDenyRule(r: Ruleset, ctx: Context)
    requires !Constrained(r)
    ensures !RuleMatches(r, Deny, ctx)
  {
  }

  // ---------- assertAllowed ----------

  datatype Policy = Policy(agentId: Text, isActive: bool, rules: Ruleset)

  function ActivePolicies(table: seq<Policy>, agentId: Text): (found: seq<Policy>)
    ensures forall p :: p in found <==> p in table && p.agentId == agentId && p.isActive
  {
    if table == [] then []
    else if table[0].agentId == agentId && table[0].isActive then [table[0]] + ActivePolicies(table[1..], agentId)
    else ActivePolicies(table[1..], agentId)
  }

  predicate AllAllow(policies: seq<Policy>, ctx: Context) {
    forall p :: p in policies ==> EvaluatePolicyAccess(p.rules, ctx).allowed
  }

  /** The reason is that of the first policy that denies. */
  predicate FirstDenial(found: seq<Policy>, ctx: Context, reason: Reason) {
    exists i :: 0 <= i < |found| && EvaluatePolicyAccess(found[i].rules, ctx) == Verdict(false, reason)
                && forall j :: 0 <= j < i ==> EvaluatePolicyAccess(found[j].rules, ctx).allowed
  }

  class PolicyEvaluatorService {
    /** The policies table. */
    var policies: seq<Policy>
    /** The decisions counted so far; `allowed` and `reason` are the counter's labels. */
    var decisions: seq<Verdict>

    constructor (table: seq<Policy>)
      ensures policies == table && decisions == []
    {
      policies, decisions := table, [];
    }

    /** Err carries the reason of the ForbiddenException. */
    method AssertAllowed(agentId: Text, ctx: Context) returns (r: Result<(), Reason>)
      modifies `decisions
      ensures r.Ok? <==> AllAllow(ActivePolicies(policies, agentId), ctx)
      ensures |decisions| == |old(decisions)| + 1 && decisions[..|old(decisions)|] == old(decisions)
      ensures decisions[|decisions| - 1].allowed == r.Ok?
      ensures r.Err? ==> decisions[|decisions| - 1].reason == r.error
      ensures r.Err? ==> FirstDenial(ActivePolicies(policies, agentId), ctx, r.error)
      ensures ActivePolicies(policies, agentId) == [] <==> decisions[|decisions| - 1].reason == NoActivePolicy
      ensures var found := ActivePolicies(policies, agentId);
              r.Ok? && found != [] ==> decisions[|decisions| - 1] == EvaluatePolicyAccess(found[|found| - 1].rules, ctx)
    {
      var found := ActivePolicies(policies, agentId);
      if found == [] {
        decisions := decisions + [Verdict(true, NoActivePolicy)];
        return Ok(());
      }
      var allowReason := NoAccessConstraints;
      for i := 0 to |found|
        invariant forall j :: 0 <= j < i ==> EvaluatePolicyAccess(found[j].rules, ctx).allowed
        invariant decisions == old(decisions)
        invariant allowReason != NoActivePolicy
        invariant i > 0 ==> EvaluatePolicyAccess(found[i - 1].rules, ctx) == Verdict(true, allowReason)
      {
        var result := EvaluatePolicyAccess(found[i].rules, ctx);
        if !result.allowed {
          decisions := decisions + [Verdict(false, result.reason)];
          assert found[i] in found;
          ReasonIsOneOfSix(found[i].rules, ctx);
          return Err(result.reason);
        }
        ReasonIsOneOfSix(found[i].rules, ctx);
        allowReason := result.reason;
      }
      decisions := decisions + [Verdict(true, allowReason)];
      return Ok(());
    }
  }

  /** Whether the active policies allow does not depend on the order in which they are found. */
  lemma AllAllowIgnoresOrder(a: seq<Policy>, b: seq<Policy>, agentId: Text, ctx: Context)
    requires forall p :: p in a <==> p in b
    ensures AllAllow(ActivePolicies(a, agentId), ctx) == AllAllow(ActivePolicies(b, agentId), ctx)
  {
    hide EvaluatePolicyAccess;
  }
}
