/** The memo is invisible, the two evaluators agree, and the first rule that holds wins. */
module EngineProofs {
  import opened Wrappers
  import opened RuleTypes
  import opened Schedule
  import opened Engine

  // ----- a reference without memo -----

  /** What a condition says of a message, fetching afresh. */
  function Outcome(env: Env, msg: Message, c: Condition): Result<bool, Error> {
    match Unvalued(env, msg, c)
    case Some(r) => r
    case None => Ok(Judge(env, c, FreshValue(env, msg, c.field), map[]).0)
  }

  function CapturesAfter(env: Env, msg: Message, c: Condition, caps: Captures): Captures {
    if Unvalued(env, msg, c).Some? then caps else Judge(env, c, FreshValue(env, msg, c.field), caps).1
  }

  function FreshConditions(env: Env, msg: Message, operator: string, cs: seq<Condition>,
                           caps: Captures): (Step, Captures)
    decreases |cs|
  {
    if cs == [] then (Undecided, caps)
    else
      var caps1 := CapturesAfter(env, msg, cs[0], caps);
      var step := Decide(operator, Outcome(env, msg, cs[0]));
      if step.Decided? then (step, caps1) else FreshConditions(env, msg, operator, cs[1..], caps1)
  }

  function FreshGroup(env: Env, msg: Message, g: Group, caps: Captures): (Result<bool, Error>, Captures)
    decreases g, 1
  {
    var (step, caps1) := FreshConditions(env, msg, g.operator, g.conditions, caps);
    if step.Decided? then (step.r, caps1)
    else
      var (step2, caps2) := FreshGroups(env, msg, g.operator, g.groups, caps1);
      if step2.Decided? then (step2.r, caps2) else (Ok(g.operator == "AND"), caps2)
  }

  function FreshGroups(env: Env, msg: Message, operator: string, gs: seq<Group>, caps: Captures): (Step, Captures)
    decreases gs, 0
  {
    if gs == [] then (Undecided, caps)
    else
      var (r, caps1) := FreshGroup(env, msg, gs[0], caps);
      var step := Decide(operator, r);
      if step.Decided? then (step, caps1) else FreshGroups(env, msg, operator, gs[1..], caps1)
  }

  function FreshRoots(env: Env, msg: Message, gs: seq<Group>, caps: Captures): (Result<bool, Error>, Captures)
    decreases |gs|
  {
    if gs == [] then (Ok(true), caps)
    else
      var (r, caps1) := FreshGroup(env, msg, gs[0], caps);
      if r != Ok(true) then (r, caps1) else FreshRoots(env, msg, gs[1..], caps1)
  }

  function FreshRule(env: Env, msg: Message, rule: Rule): Engine.Verdict {
    var (r, caps) := FreshRoots(env, msg, rule.groups, map[]);
    Verdict(r, if r == Ok(true) then caps else map[])
  }

  // ----- the memo -----

  /** Every memo entry is what the client would answer, and no request was sent twice. */
  ghost predicate Faithful(env: Env, x: Extras) {
    && (x.bodyOk ==> x.body == (if env.client.Some? then env.client.value.body else ""))
    && (!x.bodyOk ==> x.body == "")
    && (forall n <- x.headers :: x.headers[n] == (if env.client.Some? then env.client.value.header(n) else ""))
    && (forall f <- x.fetches :: if f.Body? then x.bodyOk else f.name in x.headers)
    && (forall i, j :: 0 <= i < j < |x.fetches| ==> x.fetches[i] != x.fetches[j])
  }

  lemma FieldValueIsFresh(env: Env, msg: Message, field: string, x: Extras)
    requires Faithful(env, x)
    ensures var (v, x') := FieldValue(env, msg, field, x);
      v == FreshValue(env, msg, field) && Faithful(env, x')
  {
    if IsHeader(field) {
      var name := HeaderName(field);
      var x' := EnsureHeader(env, x, name).1;
      if name !in x.headers && env.client.Some? {
        assert Header(name) !in x.fetches;
      }
    } else if field == "body" && !x.bodyOk && env.client.Some? {
      assert Body !in x.fetches;
    }
  }

  lemma JudgeIgnoresCaptures(env: Env, c: Condition, val: string, a: Captures, b: Captures)
    ensures Judge(env, c, val, a).0 == Judge(env, c, val, b).0
  {
    hide Bind, ValueTest;
  }

  lemma EvalConditionIsFresh(env: Env, msg: Message, c: Condition, s: Scan)
    requires Faithful(env, s.extras)
    ensures var (r, s') := EvalCondition(env, msg, c, s);
      r == Outcome(env, msg, c) && s'.captures == CapturesAfter(env, msg, c, s.captures) && Faithful(env, s'.extras)
  {
    hide Judge, FieldValue, FreshValue, Unvalued, Faithful;
    if Unvalued(env, msg, c).None? {
      FieldValueIsFresh(env, msg, c.field, s.extras);
      JudgeIgnoresCaptures(env, c, FreshValue(env, msg, c.field), s.captures, map[]);
    }
  }

  lemma {:induction false} EvalConditionsAreFresh(env: Env, msg: Message, operator: string, cs: seq<Condition>, s: Scan)
    requires Faithful(env, s.extras)
    ensures var (step, s') := EvalConditions(env, msg, operator, cs, s);
      (step, s'.captures) == FreshConditions(env, msg, operator, cs, s.captures) && Faithful(env, s'.extras)
    decreases |cs|
  {
    hide EvalCondition, Outcome, CapturesAfter, Faithful;
    if cs == [] {
    } else {
      EvalConditionIsFresh(env, msg, cs[0], s);
      EvalConditionsAreFresh(env, msg, operator, cs[1..], EvalCondition(env, msg, cs[0], s).1);
    }
  }

  lemma {:induction false} EvalGroupIsFresh(env: Env, msg: Message, g: Group, s: Scan)
    requires Faithful(env, s.extras)
    ensures var (r, s') := EvalGroup(env, msg, g, s);
      (r, s'.captures) == FreshGroup(env, msg, g, s.captures) && Faithful(env, s'.extras)
    decreases g, 1
  {
    hide Faithful, Decide;
    EvalConditionsAreFresh(env, msg, g.operator, g.conditions, s);
    var (step, s1) := EvalConditions(env, msg, g.operator, g.conditions, s);
    if !step.Decided? {
      EvalGroupsAreFresh(env, msg, g.operator, g.groups, s1);
    }
  }

  lemma {:induction false} EvalGroupsAreFresh(env: Env, msg: Message, operator: string, gs: seq<Group>, s: Scan)
    requires Faithful(env, s.extras)
    ensures var (step, s') := EvalGroups(env, msg, operator, gs, s);
      (step, s'.captures) == FreshGroups(env, msg, operator, gs, s.captures) && Faithful(env, s'.extras)
    decreases gs, 0
  {
    hide Faithful, EvalConditions, FreshConditions;
    if gs == [] {
    } else {
      EvalGroupIsFresh(env, msg, gs[0], s);
      EvalGroupsAreFresh(env, msg, operator, gs[1..], EvalGroup(env, msg, gs[0], s).1);
    }
  }

  lemma {:induction false} EvalRootsAreFresh(env: Env, msg: Message, gs: seq<Group>, s: Scan)
    requires Faithful(env, s.extras)
    ensures var (r, s') := EvalRoots(env, msg, gs, s);
      (r, s'.captures) == FreshRoots(env, msg, gs, s.captures) && Faithful(env, s'.extras)
    decreases |gs|
  {
    hide Faithful, EvalConditions, FreshConditions;
    if gs == [] {
    } else {
      EvalGroupIsFresh(env, msg, gs[0], s);
      EvalRootsAreFresh(env, msg, gs[1..], EvalGroup(env, msg, gs[0], s).1);
    }
  }

  lemma EvaluateRuleIsFresh(env: Env, msg: Message, rule: Rule, x: Extras)
    requires Faithful(env, x)
    ensures var (v, x') := EvaluateRule(env, msg, rule, x);
      v == FreshRule(env, msg, rule) && Faithful(env, x')
  {
    hide Faithful;
    EvalRootsAreFresh(env, msg, rule.groups, Scan(x, map[]));
    hide EvalRoots, FreshRoots;
    if rule.groups == [] { assert FreshRoots(env, msg, [], map[]) == (Ok(true), map[]) by { NoRoots(env, msg); } }
  }

  lemma NoRoots(env: Env, msg: Message)
    ensures FreshRoots(env, msg, [], map[]) == (Ok(true), map[])
  {
  }

  /** The choice of a rule when every condition fetches for itself. */
  function FreshMatch(env: Env, msg: Message, rules: seq<Rule>): Match
    decreases |rules|
  {
    if rules == [] then NoMatch
    else if !rules[0].enabled then FreshMatch(env, msg, rules[1..])
    else
      var v := FreshRule(env, msg, rules[0]);
      match v.result
      case Err(e) => Failed(rules[0], e)
      case Ok(ok) =>
        if ok && InSchedule(rules[0], env.now) then Matched(rules[0], v.captures) else FreshMatch(env, msg, rules[1..])
  }

  lemma {:induction false} MatchRulesIsFresh(env: Env, msg: Message, rules: seq<Rule>, x: Extras)
    requires Faithful(env, x)
    ensures var (m, x') := MatchRules(env, msg, rules, x);
      m == FreshMatch(env, msg, rules) && Faithful(env, x')
    decreases |rules|
  {
    hide Faithful, EvaluateRule, FreshRule, InSchedule;
    if rules == [] {
    } else {
      if rules[0].enabled {
        EvaluateRuleIsFresh(env, msg, rules[0], x);
        MatchRulesIsFresh(env, msg, rules[1..], EvaluateRule(env, msg, rules[0], x).1);
      } else {
        MatchRulesIsFresh(env, msg, rules[1..], x);
      }
    }
  }

  /** Main result. The memo shared across rules changes neither the rule chosen nor its captures nor its
      error, and in one match the body is asked for at most once and each header name at most once. */
  lemma MemoIsInvisible(env: Env, msg: Message, rules: seq<Rule>)
    ensures var (m, x) := MatchRules(env, msg, rules, NEW_EXTRAS);
      && m == FreshMatch(env, msg, rules)
      && forall i, j :: 0 <= i < j < |x.fetches| ==> x.fetches[i] != x.fetches[j]
  {
    assert Faithful(env, NEW_EXTRAS);
    MatchRulesIsFresh(env, msg, rules, NEW_EXTRAS);
    hide MatchRules, FreshMatch;
  }

  // ----- first match -----

  /** A rule lets the message pass on to the next one. */
  predicate Passes(env: Env, msg: Message, rule: Rule) {
    !rule.enabled || FreshRule(env, msg, rule).result == Ok(false)
    || (FreshRule(env, msg, rule).result == Ok(true) && !InSchedule(rule, env.now))
  }

  ghost predicate FirstStop(env: Env, msg: Message, rules: seq<Rule>, i: nat) {
    && i < |rules| && !Passes(env, msg, rules[i])
    && forall j :: 0 <= j < i ==> Passes(env, msg, rules[j])
  }

  /** Rule i is the one the answer is about. */
  ghost predicate AnsweredBy(env: Env, msg: Message, rules: seq<Rule>, i: nat, m: Match) {
    && FirstStop(env, msg, rules, i)
    && match FreshRule(env, msg, rules[i]).result
       case Ok(_) => m == Matched(rules[i], FreshRule(env, msg, rules[i]).captures)
       case Err(e) => m == Failed(rules[i], e)
  }

  lemma FirstAnswers(env: Env, msg: Message, rules: seq<Rule>)
    requires rules != []
    ensures Passes(env, msg, rules[0]) ==> FreshMatch(env, msg, rules) == FreshMatch(env, msg, rules[1..])
    ensures !Passes(env, msg, rules[0]) ==>
      AnsweredBy(env, msg, rules, 0, FreshMatch(env, msg, rules)) && !FreshMatch(env, msg, rules).NoMatch?
  {
    hide FreshRule, InSchedule;
  }

  lemma LaterAnswers(env: Env, msg: Message, rules: seq<Rule>, i: nat, m: Match)
    requires rules != [] && Passes(env, msg, rules[0]) && AnsweredBy(env, msg, rules[1..], i, m)
    ensures AnsweredBy(env, msg, rules, i + 1, m)
  {
    hide FreshRule, Passes;
    assert rules[i + 1] == rules[1..][i];
    forall j | 0 <= j < i + 1 ensures Passes(env, msg, rules[j]) {
      if j > 0 { assert rules[j] == rules[1..][j - 1]; }
    }
  }

  /** Main result. `Match` answers with the first rule that does not let the message pass: its captures if
      it holds, its error if it has one; and with no rule exactly when all let it pass. */
  lemma {:induction false} MatchMeaning(env: Env, msg: Message, rules: seq<Rule>)
    ensures var m := FreshMatch(env, msg, rules);
      && (m.NoMatch? <==> forall r <- rules :: Passes(env, msg, r))
      && (!m.NoMatch? ==> exists i: nat :: AnsweredBy(env, msg, rules, i, m))
    decreases |rules|
  {
    hide FreshMatch, AnsweredBy, Passes;
    if rules == [] {
      NothingMatches(env, msg);
    } else {
      MatchMeaning(env, msg, rules[1..]);
      FirstAnswers(env, msg, rules);
      assert rules == [rules[0]] + rules[1..];
      var m := FreshMatch(env, msg, rules);
      if Passes(env, msg, rules[0]) && !m.NoMatch? {
        var i: nat :| AnsweredBy(env, msg, rules[1..], i, m);
        LaterAnswers(env, msg, rules, i, m);
      }
    }
  }

  lemma NothingMatches(env: Env, msg: Message)
    ensures FreshMatch(env, msg, []) == NoMatch
  {
  }
}
