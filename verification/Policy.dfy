/**
The attribute-based rules that a request must pass once its role permissions match.

A condition is a tree over comparisons; what a comparison of resolved operands gives in
one request (true, false, or an exception) comes from the environment. An exception is
the absence of a value and travels up through the short-circuiting operators.
*/
module Policy {
  import opened Common

  datatype Comparison = Comparison(op: string, left: string, right: string)

  datatype Condition =
    | Constant(value: bool)
    | All(operands: seq<Condition>)
    | Any(operands: seq<Condition>)
    | Negated(operand: Condition)
    | Atom(comparison: Comparison)
    | Malformed

  type Environment = Comparison -> Option<bool>

  // ---- Conditions ----

  /** The value of a condition, left to right with short circuits; None when evaluation raises. */
  function Evaluate(c: Condition, env: Environment): Option<bool> {
    match c
    case Constant(value) => Some(value)
    case All(operands) => EvaluateAll(operands, env)
    case Any(operands) => EvaluateAny(operands, env)
    case Negated(operand) =>
      (match Evaluate(operand, env)
       case None => None
       case Some(value) => Some(!value))
    case Atom(comparison) => env(comparison)
    case Malformed => None
  }

  function EvaluateAll(cs: seq<Condition>, env: Environment): Option<bool> {
    if cs == [] then Some(true)
    else match Evaluate(cs[0], env)
      case None => None
      case Some(value) => if value then EvaluateAll(cs[1..], env) else Some(false)
  }

  function EvaluateAny(cs: seq<Condition>, env: Environment): Option<bool> {
    if cs == [] then Some(false)
    else match Evaluate(cs[0], env)
      case None => None
      case Some(value) => if value then Some(true) else EvaluateAny(cs[1..], env)
  }

  /** Nothing in the condition can raise. */
  ghost predicate Sound(c: Condition, env: Environment) {
    match c
    case Constant(_) => true
    case All(operands) => forall o :: o in operands ==> Sound(o, env)
    case Any(operands) => forall o :: o in operands ==> Sound(o, env)
    case Negated(operand) => Sound(operand, env)
    case Atom(comparison) => env(comparison).Some?
    case Malformed => false
  }

  /** The truth of a condition, with no order of evaluation. */
  ghost predicate Holds(c: Condition, env: Environment) {
    match c
    case Constant(value) => value
    case All(operands) => forall o :: o in operands ==> Holds(o, env)
    case Any(operands) => exists o :: o in operands && Holds(o, env)
    case Negated(operand) => !Holds(operand, env)
    case Atom(comparison) => env(comparison) == Some(true)
    case Malformed => false
  }

  /** Where nothing raises, evaluation gives the truth. */
  lemma {:induction false} EvaluationIsTruth(c: Condition, env: Environment)
    requires Sound(c, env)
    ensures Evaluate(c, env) == Some(Holds(c, env))
    decreases c, 1
  {
    match c
    case All(operands) =>
      AllIsTruth(operands, env);
      assert Evaluate(c, env) == EvaluateAll(operands, env);
      assert Holds(c, env) <==> forall o :: o in operands ==> Holds(o, env);
    case Any(operands) =>
      AnyIsTruth(operands, env);
      assert Evaluate(c, env) == EvaluateAny(operands, env);
      assert Holds(c, env) <==> exists o :: o in operands && Holds(o, env);
    case Negated(operand) => EvaluationIsTruth(operand, env);
    case Atom(comparison) =>
      var outcome: Option<bool> := env(comparison);
      assert outcome == Some(outcome.value);
      assert outcome.value == (outcome == Some(true));
    case Constant(_) =>
  }

  lemma {:induction false} AllIsTruth(cs: seq<Condition>, env: Environment)
    requires forall o :: o in cs ==> Sound(o, env)
    ensures EvaluateAll(cs, env) == Some(forall o :: o in cs ==> Holds(o, env))
    decreases cs, 0
  {
    if cs != [] {
      EvaluationIsTruth(cs[0], env);
      AllIsTruth(cs[1..], env);
      assert forall o :: o in cs <==> o == cs[0] || o in cs[1..];
    }
  }

  lemma {:induction false} AnyIsTruth(cs: seq<Condition>, env: Environment)
    requires forall o :: o in cs ==> Sound(o, env)
    ensures EvaluateAny(cs, env) == Some(exists o :: o in cs && Holds(o, env))
    decreases cs, 0
  {
    if cs != [] {
      EvaluationIsTruth(cs[0], env);
      AnyIsTruth(cs[1..], env);
      assert forall o :: o in cs <==> o == cs[0] || o in cs[1..];
    }
  }

  // ---- Rules ----

  datatype Effect = AllowEffect | DenyEffect | OtherEffect

  /** Scopes are opaque: an absent one matches every request, and so does the resource or action "*". */
  datatype Rule<K> = Rule(
    effect: Effect,
    resource: string,
    action: string,
    condition: Condition,
    tenant: Option<K>,
    application: Option<K>)

  datatype Target<K> = Target(tenant: K, application: K, resource: string, action: string)

  predicate Matches<K(==)>(rule: Rule<K>, target: Target<K>) {
    && (rule.tenant.None? || rule.tenant == Some(target.tenant))
    && (rule.application.None? || rule.application == Some(target.application))
    && (rule.resource == "*" || rule.resource == target.resource)
    && (rule.action == "*" || rule.action == target.action)
  }

  /** What one rule asks of a request that passes. */
  ghost predicate Satisfied<K>(rule: Rule<K>, target: Target<K>, env: Environment) {
    Matches(rule, target) ==>
      && (rule.effect == DenyEffect ==> Evaluate(rule.condition, env) == Some(false))
      && (rule.effect == AllowEffect ==> Evaluate(rule.condition, env) == Some(true))
  }

  ghost predicate AllSatisfied<K(!new)>(rules: seq<Rule<K>>, target: Target<K>, env: Environment) {
    forall r :: r in rules ==> Satisfied(r, target, env)
  }

  /** The answer of the rules, as a value; the loop below computes it. None: evaluation raised. */
  function Verdict<K(==)>(rules: seq<Rule<K>>, target: Target<K>, env: Environment): Option<bool> {
    match FirstFailure(rules, DenyEffect, target, env)
    case None => None
    case Some(blocked) => if blocked then Some(false) else
      match FirstFailure(rules, AllowEffect, target, env)
      case None => None
      case Some(failed) => Some(!failed)
  }

  /** Does a matching rule of this effect fail the request, or raise, going through them in order? */
  function FirstFailure<K(==)>(rules: seq<Rule<K>>, effect: Effect, target: Target<K>, env: Environment): Option<bool> {
    if rules == [] then Some(false)
    else if rules[0].effect != effect || !Matches(rules[0], target) then FirstFailure(rules[1..], effect, target, env)
    else match Evaluate(rules[0].condition, env)
      case None => None
      case Some(value) =>
        if value == (effect == DenyEffect) then Some(true) else FirstFailure(rules[1..], effect, target, env)
  }

  /** One pass over the applicable rules. */
  method Scan<K(==)>(rules: seq<Rule<K>>, effect: Effect, target: Target<K>, env: Environment) returns (failed: Option<bool>)
    ensures failed == FirstFailure(rules, effect, target, env)
  {
    var i := 0;
    while i < |rules|
      invariant 0 <= i <= |rules|
      invariant FirstFailure(rules, effect, target, env) == FirstFailure(rules[i..], effect, target, env)
    {
      var rule := rules[i];
      assert rules[i..][1..] == rules[i + 1..];
      if Matches(rule, target) && rule.effect == effect {
        var value := Evaluate(rule.condition, env);
        if value.None? {
          return None;
        }
        if value.value == (effect == DenyEffect) {
          return Some(true);
        }
      }
      i := i + 1;
    }
    return Some(false);
  }

  lemma {:induction false} NoFailureIsSatisfied<K(!new)>(rules: seq<Rule<K>>, effect: Effect, target: Target<K>, env: Environment)
    ensures FirstFailure(rules, effect, target, env) == Some(false) <==>
            forall r | r in rules && r.effect == effect && Matches(r, target)
              :: Evaluate(r.condition, env) == Some(effect != DenyEffect)
  {
    if rules != [] {
      NoFailureIsSatisfied(rules[1..], effect, target, env);
      assert forall r :: r in rules <==> r == rules[0] || r in rules[1..];
    }
  }

  /** A request passes exactly when every single rule is satisfied; even rules that raise cannot let it through. */
  lemma PassesIffSatisfied<K(!new)>(rules: seq<Rule<K>>, target: Target<K>, env: Environment)
    ensures Verdict(rules, target, env) == Some(true) <==> AllSatisfied(rules, target, env)
  {
    NoFailureIsSatisfied(rules, DenyEffect, target, env);
    NoFailureIsSatisfied(rules, AllowEffect, target, env);
  }

  /** The order of the rules does not decide whether a request passes. */
  lemma OrderIsIrrelevant<K(!new)>(rules: seq<Rule<K>>, other: seq<Rule<K>>, target: Target<K>, env: Environment)
    requires multiset(rules) == multiset(other)
    ensures Verdict(rules, target, env) == Some(true) <==> Verdict(other, target, env) == Some(true)
  {
    PassesIffSatisfied(rules, target, env);
    PassesIffSatisfied(other, target, env);
    SameRules(rules, other);
  }

  /** More rules never let more through. */
  lemma MoreRulesNeverAllow<K(!new)>(rules: seq<Rule<K>>, more: seq<Rule<K>>, target: Target<K>, env: Environment)
    requires forall r :: r in rules ==> r in more
    requires Verdict(more, target, env) == Some(true)
    ensures Verdict(rules, target, env) == Some(true)
  {
    PassesIffSatisfied(rules, target, env);
    PassesIffSatisfied(more, target, env);
  }

  // ---- Which rules have a say ----

  /** The rule is written for another tenant, application, resource or action. */
  predicate WrittenForOthers<K(==)>(rule: Rule<K>, target: Target<K>) {
    || (rule.tenant.Some? && rule.tenant.value != target.tenant)
    || (rule.application.Some? && rule.application.value != target.application)
    || (rule.resource != "*" && rule.resource != target.resource)
    || (rule.action != "*" && rule.action != target.action)
  }

  lemma {:induction false} OthersRuleIsSkipped<K>(before: seq<Rule<K>>, rule: Rule<K>, after: seq<Rule<K>>, effect: Effect,
                                                  target: Target<K>, env: Environment)
    requires WrittenForOthers(rule, target)
    ensures FirstFailure(before + [rule] + after, effect, target, env) == FirstFailure(before + after, effect, target, env)
  {
    if before == [] {
      assert ([rule] + after)[1..] == after && before + [rule] + after == [rule] + after && before + after == after;
    } else {
      OthersRuleIsSkipped(before[1..], rule, after, effect, target, env);
      assert (before + [rule] + after)[1..] == before[1..] + [rule] + after;
      assert (before + after)[1..] == before[1..] + after;
    }
  }

  /** A rule written for something else never changes the answer, wherever it stands. */
  lemma OthersRuleIsIdle<K(!new)>(before: seq<Rule<K>>, rule: Rule<K>, after: seq<Rule<K>>, target: Target<K>, env: Environment)
    requires WrittenForOthers(rule, target)
    ensures Verdict(before + [rule] + after, target, env) == Verdict(before + after, target, env)
  {
    OthersRuleIsSkipped(before, rule, after, DenyEffect, target, env);
    OthersRuleIsSkipped(before, rule, after, AllowEffect, target, env);
  }

  /** Every other rule has a say: no request passes a deny rule that is not false, or an allow rule that is not true. */
  lemma OwnRuleDecides<K(!new)>(rules: seq<Rule<K>>, rule: Rule<K>, target: Target<K>, env: Environment)
    requires rule in rules && !WrittenForOthers(rule, target) && Verdict(rules, target, env) == Some(true)
    ensures rule.effect == DenyEffect ==> Evaluate(rule.condition, env) == Some(false)
    ensures rule.effect == AllowEffect ==> Evaluate(rule.condition, env) == Some(true)
  {
    PassesIffSatisfied(rules, target, env);
    assert Satisfied(rule, target, env);
  }

  // ---- When the whole verdict is independent of the order ----

  /** A matching rule of this effect whose condition raises. */
  ghost predicate Raises<K>(rule: Rule<K>, effect: Effect, target: Target<K>, env: Environment) {
    rule.effect == effect && Matches(rule, target) && Evaluate(rule.condition, env) == None
  }

  /** A matching rule of this effect that fails the request: a true deny rule, a false allow rule. */
  ghost predicate Fails<K>(rule: Rule<K>, effect: Effect, target: Target<K>, env: Environment) {
    rule.effect == effect && Matches(rule, target) && Evaluate(rule.condition, env) == Some(effect == DenyEffect)
  }

  ghost predicate SomeRaises<K(!new)>(rules: seq<Rule<K>>, effect: Effect, target: Target<K>, env: Environment) {
    exists r :: r in rules && Raises(r, effect, target, env)
  }

  ghost predicate SomeFails<K(!new)>(rules: seq<Rule<K>>, effect: Effect, target: Target<K>, env: Environment) {
    exists r :: r in rules && Fails(r, effect, target, env)
  }

  /**
  No raising deny rule competes with a true one; and where no deny rule raises or is true,
  no raising allow rule competes with a false one.
  */
  ghost predicate NoCompetition<K(!new)>(rules: seq<Rule<K>>, target: Target<K>, env: Environment) {
    && !(SomeRaises(rules, DenyEffect, target, env) && SomeFails(rules, DenyEffect, target, env))
    && (!SomeRaises(rules, DenyEffect, target, env) && !SomeFails(rules, DenyEffect, target, env) ==>
          !(SomeRaises(rules, AllowEffect, target, env) && SomeFails(rules, AllowEffect, target, env)))
  }

  /** Every order of the rules gives the same verdict. */
  ghost predicate OrderIndependent<K(!new)>(rules: seq<Rule<K>>, target: Target<K>, env: Environment) {
    forall other: seq<Rule<K>> | multiset(other) == multiset(rules) :: Verdict(other, target, env) == Verdict(rules, target, env)
  }

  /** A pass raises or fails only because of a rule that does, and is clean exactly when no rule does either. */
  lemma {:induction false} FirstFailureIs<K(!new)>(rules: seq<Rule<K>>, effect: Effect, target: Target<K>, env: Environment)
    ensures var first := FirstFailure(rules, effect, target, env);
            && (first == None ==> SomeRaises(rules, effect, target, env))
            && (first == Some(true) ==> SomeFails(rules, effect, target, env))
            && (first == Some(false) <==> !SomeRaises(rules, effect, target, env) && !SomeFails(rules, effect, target, env))
  {
    if rules != [] {
      FirstFailureIs(rules[1..], effect, target, env);
      assert forall r :: r in rules <==> r == rules[0] || r in rules[1..];
      assert Raises(rules[0], effect, target, env) ==> SomeRaises(rules, effect, target, env);
      assert Fails(rules[0], effect, target, env) ==> SomeFails(rules, effect, target, env);
    }
  }

  /** Where nothing competes, the order is irrelevant. */
  lemma WithoutCompetition<K(!new)>(rules: seq<Rule<K>>, other: seq<Rule<K>>, target: Target<K>, env: Environment)
    requires multiset(other) == multiset(rules) && NoCompetition(rules, target, env)
    ensures Verdict(other, target, env) == Verdict(rules, target, env)
  {
    SameRules(rules, other);
    forall effect ensures SomeRaises(other, effect, target, env) <==> SomeRaises(rules, effect, target, env) {
    }
    forall effect ensures SomeFails(other, effect, target, env) <==> SomeFails(rules, effect, target, env) {
    }
    FirstFailureIs(rules, DenyEffect, target, env);
    FirstFailureIs(rules, AllowEffect, target, env);
    FirstFailureIs(other, DenyEffect, target, env);
    FirstFailureIs(other, AllowEffect, target, env);
  }

  lemma SameRules<K>(rules: seq<Rule<K>>, other: seq<Rule<K>>)
    requires multiset(other) == multiset(rules)
    ensures forall r :: r in rules <==> r in other
  {
    forall r ensures r in rules <==> r in other {
      assert r in multiset(rules) <==> r in multiset(other);
    }
  }

  /** The same rules with a chosen one in front. */
  lemma InFront<K>(rules: seq<Rule<K>>, rule: Rule<K>) returns (other: seq<Rule<K>>)
    requires rule in rules
    ensures multiset(other) == multiset(rules) && other != [] && other[0] == rule
  {
    var i :| 0 <= i < |rules| && rules[i] == rule;
    other := [rule] + (rules[..i] + rules[i + 1..]);
    assert rules == rules[..i] + [rules[i]] + rules[i + 1..];
  }

  /** Of a raising and a failing rule of one effect, whichever comes first decides its pass. */
  lemma TwoOrders<K(!new)>(rules: seq<Rule<K>>, effect: Effect, target: Target<K>, env: Environment)
    returns (raising: seq<Rule<K>>, failing: seq<Rule<K>>)
    requires SomeRaises(rules, effect, target, env) && SomeFails(rules, effect, target, env)
    ensures multiset(raising) == multiset(rules) && FirstFailure(raising, effect, target, env) == None
    ensures multiset(failing) == multiset(rules) && FirstFailure(failing, effect, target, env) == Some(true)
  {
    var r :| r in rules && Raises(r, effect, target, env);
    var f :| f in rules && Fails(f, effect, target, env);
    raising := InFront(rules, r);
    failing := InFront(rules, f);
  }

  /** Where two rules compete, one order raises and another refuses. */
  lemma WithCompetition<K(!new)>(rules: seq<Rule<K>>, target: Target<K>, env: Environment)
    returns (raising: seq<Rule<K>>, failing: seq<Rule<K>>)
    requires !NoCompetition(rules, target, env)
    ensures multiset(raising) == multiset(rules) && Verdict(raising, target, env) == None
    ensures multiset(failing) == multiset(rules) && Verdict(failing, target, env) == Some(false)
  {
    if SomeRaises(rules, DenyEffect, target, env) {
      raising, failing := TwoOrders(rules, DenyEffect, target, env);
    } else {
      raising, failing := TwoOrders(rules, AllowEffect, target, env);
      NoDeny(rules, raising, target, env);
      NoDeny(rules, failing, target, env);
    }
  }

  lemma NoDeny<K(!new)>(rules: seq<Rule<K>>, other: seq<Rule<K>>, target: Target<K>, env: Environment)
    requires multiset(other) == multiset(rules)
    requires !SomeRaises(rules, DenyEffect, target, env) && !SomeFails(rules, DenyEffect, target, env)
    ensures FirstFailure(other, DenyEffect, target, env) == Some(false)
  {
    SameRules(rules, other);
    FirstFailureIs(other, DenyEffect, target, env);
  }

  /** The verdict is the same in every order exactly when no raising rule competes with a failing one. */
  lemma OrderIndependentIff<K(!new)>(rules: seq<Rule<K>>, target: Target<K>, env: Environment)
    ensures OrderIndependent(rules, target, env) <==> NoCompetition(rules, target, env)
  {
    if NoCompetition(rules, target, env) {
      forall other: seq<Rule<K>> | multiset(other) == multiset(rules)
        ensures Verdict(other, target, env) == Verdict(rules, target, env)
      {
        WithoutCompetition(rules, other, target, env);
      }
    } else {
      var raising, failing := WithCompetition(rules, target, env);
      assert Verdict(raising, target, env) != Verdict(failing, target, env);
    }
  }

  /** So it is where nothing can raise. */
  lemma SoundOrderIsIrrelevant<K(!new)>(rules: seq<Rule<K>>, target: Target<K>, env: Environment)
    requires forall r :: r in rules && Matches(r, target) ==> Sound(r.condition, env)
    ensures OrderIndependent(rules, target, env)
  {
    forall r | r in rules && Matches(r, target) ensures Evaluate(r.condition, env).Some? {
      EvaluationIsTruth(r.condition, env);
    }
    OrderIndependentIff(rules, target, env);
  }

  /** A raising rule beside a true deny rule: one order refuses, the other raises. */
  lemma RaisingOrderMatters(env: Environment, target: Target<int>)
    ensures var blocks := Rule(DenyEffect, "*", "*", Constant(true), None, None);
            var raises := Rule(DenyEffect, "*", "*", Malformed, None, None);
            && Verdict([blocks, raises], target, env) == Some(false)
            && Verdict([raises, blocks], target, env) == None
  {
  }

  /** The rule set as an object that rules are added to. */
  class PolicyEngine<K(==, !new)> {
    var rules: seq<Rule<K>>

    constructor (initial: seq<Rule<K>>)
      ensures rules == initial
    {
      rules := initial;
    }

    method AddRule(rule: Rule<K>)
      modifies this
      ensures rules == old(rules) + [rule]
      ensures forall target, env :: Verdict(rules, target, env) == Some(true) ==> Verdict(old(rules), target, env) == Some(true)
    {
      rules := rules + [rule];
      forall target, env | Verdict(rules, target, env) == Some(true)
        ensures Verdict(old(rules), target, env) == Some(true)
      {
        MoreRulesNeverAllow(old(rules), rules, target, env);
      }
    }

    /** Deny rules first, then allow rules. */
    method Check(target: Target<K>, env: Environment) returns (verdict: Option<bool>)
      ensures verdict == Verdict(rules, target, env)
      ensures verdict == Some(true) <==> AllSatisfied(rules, target, env)
    {
      PassesIffSatisfied(rules, target, env);
      var blocked := Scan(rules, DenyEffect, target, env);
      if blocked.None? {
        return None;
      }
      if blocked.value {
        return Some(false);
      }
      var failed := Scan(rules, AllowEffect, target, env);
      if failed.None? {
        return None;
      }
      return Some(!failed.value);
    }
  }
}
