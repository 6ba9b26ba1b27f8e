/** The evaluator as it runs: one memo object for a message, loops over conditions, groups and rules. */
module EngineObjects {
  import opened Wrappers
  import opened RuleTypes
  import opened Schedule
  import opened Engine

  /** `msgExtras`. */
  class MsgExtras {
    const client: Option<Client>
    var bodyOk: bool
    var body: string
    var headers: map<string, string>
    ghost var fetches: seq<Fetch>

    ghost function Value(): Extras
      reads this
    {
      Extras(bodyOk, body, headers, fetches)
    }

    constructor (client: Option<Client>)
      ensures Value() == NEW_EXTRAS && this.client == client
    {
      this.client := client;
      bodyOk, body, headers, fetches := false, "", map[], [];
    }

    method EnsureBody(env: Env) returns (v: string)
      requires env.client == client
      modifies this
      ensures (v, Value()) == Engine.EnsureBody(env, old(Value()))
    {
      if bodyOk { return body; }
      bodyOk := true;
      if client.None? { return ""; }
      fetches := fetches + [Body];
      body := client.value.body;
      v := body;
    }

    method EnsureHeader(env: Env, name: string) returns (v: string)
      requires env.client == client
      modifies this
      ensures (v, Value()) == Engine.EnsureHeader(env, old(Value()), name)
    {
      if name in headers { return headers[name]; }
      if client.None? {
        headers := headers[name := ""];
        return "";
      }
      v := client.value.header(name);
      fetches := fetches + [Header(name)];
      headers := headers[name := v];
    }

    method FieldValue(env: Env, msg: Message, field: string) returns (v: string)
      requires env.client == client
      modifies this
      ensures (v, Value()) == Engine.FieldValue(env, msg, field, old(Value()))
    {
      if IsHeader(field) {
        v := EnsureHeader(env, HeaderName(field));
      } else if field == "body" {
        v := EnsureBody(env);
      } else {
        v := OwnField(env, msg, field);
      }
    }
  }

  /** The loop over the groups of a regular expression. */
  method BindCaptures(caps: Captures, names: seq<string>, found: seq<string>) returns (r: Captures)
    ensures r == Bind(caps, names, found, 0)
  {
    r := caps;
    var i := 0;
    while i < |names|
      invariant 0 <= i <= |names|
      invariant Bind(r, names, found, i) == Bind(caps, names, found, 0)
    {
      if i == 0 {
        if found != [] { r := r["capture:0" := found[0]]; }
      } else if names[i] != "" && i < |found| {
        r := r["capture:" + names[i] := found[i]];
      }
      i := i + 1;
    }
  }

  method EvalCondition(env: Env, msg: Message, c: Condition, x: MsgExtras, caps: Captures)
    returns (r: Result<bool, Error>, caps': Captures)
    requires env.client == x.client
    modifies x
    ensures (r, Scan(x.Value(), caps')) == Engine.EvalCondition(env, msg, c, Scan(old(x.Value()), caps))
  {
    hide Engine.FieldValue, Bind, RegexFinds, ValueTest;
    caps' := caps;
    var early := Unvalued(env, msg, c);
    if early.Some? { return early.value, caps; }
    var val := x.FieldValue(env, msg, c.field);
    if c.operator == "matches_regex" {
      var hit := RegexFinds(env, c, val);
      if hit.None? { return Ok(false), caps; }
      caps' := BindCaptures(caps, hit.value.0.names, hit.value.1);
      r := Ok(true);
    } else {
      r := Ok(ValueTest(env, c, val));
    }
  }

  /** `evalGroupWithExtras`: a loop over the conditions, then one over the subgroups. */
  method EvalGroup(env: Env, msg: Message, g: Group, x: MsgExtras, caps: Captures)
    returns (r: Result<bool, Error>, caps': Captures)
    requires env.client == x.client
    modifies x
    ensures (r, Scan(x.Value(), caps')) == Engine.EvalGroup(env, msg, g, Scan(old(x.Value()), caps))
    decreases g
  {
    hide Engine.EvalCondition;
    caps' := caps;
    var i := 0;
    while i < |g.conditions|
      invariant 0 <= i <= |g.conditions|
      invariant EvalConditions(env, msg, g.operator, g.conditions[i..], Scan(x.Value(), caps'))
             == EvalConditions(env, msg, g.operator, g.conditions, Scan(old(x.Value()), caps))
    {
      var ok;
      ok, caps' := EvalCondition(env, msg, g.conditions[i], x, caps');
      if ok.Err? { return ok, caps'; }
      if g.operator == "AND" && !ok.value { return Ok(false), caps'; }
      if g.operator == "OR" && ok.value { return Ok(true), caps'; }
      i := i + 1;
    }
    ghost var s1 := Scan(x.Value(), caps');
    i := 0;
    while i < |g.groups|
      invariant 0 <= i <= |g.groups|
      invariant EvalGroups(env, msg, g.operator, g.groups[i..], Scan(x.Value(), caps'))
             == EvalGroups(env, msg, g.operator, g.groups, s1)
    {
      var ok;
      ok, caps' := EvalGroup(env, msg, g.groups[i], x, caps');
      if ok.Err? { return ok, caps'; }
      if g.operator == "AND" && !ok.value { return Ok(false), caps'; }
      if g.operator == "OR" && ok.value { return Ok(true), caps'; }
      i := i + 1;
    }
    r := Ok(g.operator == "AND");
  }

  method EvaluateRule(env: Env, msg: Message, rule: Rule, x: MsgExtras) returns (v: Engine.Verdict)
    requires env.client == x.client
    modifies x
    ensures (v, x.Value()) == Engine.EvaluateRule(env, msg, rule, old(x.Value()))
  {
    hide Engine.EvalGroup;
    if rule.groups == [] { return Verdict(Ok(true), map[]); }
    var caps := map[];
    var i := 0;
    while i < |rule.groups|
      invariant 0 <= i <= |rule.groups|
      invariant EvalRoots(env, msg, rule.groups[i..], Scan(x.Value(), caps))
             == EvalRoots(env, msg, rule.groups, Scan(old(x.Value()), map[]))
    {
      var ok;
      ok, caps := EvalGroup(env, msg, rule.groups[i], x, caps);
      if ok.Err? || !ok.value { return Verdict(ok, map[]); }
      i := i + 1;
    }
    v := Verdict(Ok(true), caps);
  }

  /** `Match`: one memo for all rules. */
  method MatchRules(env: Env, msg: Message, rules: seq<Rule>) returns (m: Match, ghost fetches: seq<Fetch>)
    ensures m == Engine.MatchRules(env, msg, rules, NEW_EXTRAS).0
    ensures fetches == Engine.MatchRules(env, msg, rules, NEW_EXTRAS).1.fetches
  {
    hide Engine.EvaluateRule, InSchedule;
    var x := new MsgExtras(env.client);
    var i := 0;
    while i < |rules|
      invariant 0 <= i <= |rules|
      invariant Engine.MatchRules(env, msg, rules[i..], x.Value()) == Engine.MatchRules(env, msg, rules, NEW_EXTRAS)
    {
      if rules[i].enabled {
        var v := EvaluateRule(env, msg, rules[i], x);
        match v.result {
          case Err(e) => return Failed(rules[i], e), x.fetches;
          case Ok(ok) =>
            if ok && InSchedule(rules[i], env.now) { return Matched(rules[i], v.captures), x.fetches; }
        }
      }
      i := i + 1;
    }
    m, fetches := NoMatch, x.fetches;
  }

  /** Results gathered so far, in front of the rest. */
  function Prepend<T>(done: seq<T>, rest: Result<seq<T>, Error>): Result<seq<T>, Error> {
    if rest.Ok? then Ok(done + rest.value) else rest
  }

  lemma PrependOne<T>(done: seq<T>, one: T, rest: Result<seq<T>, Error>)
    ensures Prepend(done, Prepend([one], rest)) == Prepend(done + [one], rest)
  {
    if rest.Ok? { assert done + ([one] + rest.value) == done + [one] + rest.value; }
  }

  lemma PrependNone<T>(done: seq<T>, rest: Result<seq<T>, Error>)
    ensures Prepend([], rest) == rest
    ensures Prepend(done, Ok([])) == Ok(done)
  {
    if rest.Ok? { assert [] + rest.value == rest.value; }
    assert done + [] == done;
  }

  /** `evalGroupWithResults`: no early way out, two flags gathered on the way. */
  method ReportGroup(env: Env, msg: Message, g: Group, s: Scan) returns (r: Result<GroupResult, Error>, s': Scan)
    ensures (r, s') == Engine.ReportGroup(env, msg, g, s)
    decreases g
  {
    hide ReportCondition;
    s' := s;
    var allPassed, anyPassed := true, false;
    var results: seq<ConditionResult> := [];
    var i := 0;
    PrependNone(results, ReportConditions(env, msg, g.conditions, s).0);
    while i < |g.conditions|
      invariant 0 <= i <= |g.conditions|
      invariant allPassed == forall x <- results :: x.passed
      invariant anyPassed == exists x <- results :: x.passed
      invariant var (rest, s2) := ReportConditions(env, msg, g.conditions[i..], s');
        ReportConditions(env, msg, g.conditions, s) == (Prepend(results, rest), s2)
    {
      assert g.conditions[i..][1..] == g.conditions[i + 1..];
      var (cr, s1) := ReportCondition(env, msg, g.conditions[i], s');
      s' := s1;
      if cr.Err? { return Err(cr.error), s'; }
      PrependOne(results, cr.value, ReportConditions(env, msg, g.conditions[i + 1..], s').0);
      results := results + [cr.value];
      if cr.value.passed { anyPassed := true; } else { allPassed := false; }
      i := i + 1;
    }
    PrependNone(results, ReportConditions(env, msg, [], s').0);
    ghost var sc := s';
    var groups: seq<GroupResult> := [];
    i := 0;
    PrependNone(groups, ReportGroups(env, msg, g.groups, s').0);
    while i < |g.groups|
      invariant 0 <= i <= |g.groups|
      invariant allPassed == AllPassed(results, groups)
      invariant anyPassed == AnyPassed(results, groups)
      invariant var (rest, s2) := ReportGroups(env, msg, g.groups[i..], s');
        ReportGroups(env, msg, g.groups, sc) == (Prepend(groups, rest), s2)
    {
      assert g.groups[i..][1..] == g.groups[i + 1..];
      var gr;
      gr, s' := ReportGroup(env, msg, g.groups[i], s');
      if gr.Err? { return Err(gr.error), s'; }
      PrependOne(groups, gr.value, ReportGroups(env, msg, g.groups[i + 1..], s').0);
      groups := groups + [gr.value];
      if gr.value.passed { anyPassed := true; } else { allPassed := false; }
      i := i + 1;
    }
    PrependNone(groups, ReportGroups(env, msg, [], s').0);
    r := Ok(GroupResult(g.operator, if g.operator == "AND" then allPassed else anyPassed, results, groups));
  }

  lemma PrependFrom<T>(done: seq<T>, tail: seq<T>)
    ensures Prepend(done, Ok(tail)) == Ok(done + tail)
  {
  }

  /** One turn of the loop over the roots, seen from its end. */
  lemma OneRoot(env: Env, msg: Message, gs: seq<Group>, s: Scan)
    requires gs != []
    ensures var (r, s1) := Engine.ReportGroup(env, msg, gs[0], s);
      ReportRoots(env, msg, gs, s)
      == if r.Err? then (Err(r.error), s1)
         else if !r.value.passed then (Ok([r.value] + Unreached(|gs| - 1)), s1)
         else var (rest, s2) := ReportRoots(env, msg, gs[1..], s1); (Prepend([r.value], rest), s2)
  {
    hide Engine.ReportGroup, Unreached;
    var (r, s1) := Engine.ReportGroup(env, msg, gs[0], s);
    if r.Ok? && r.value.passed {
      var (rest, s2) := ReportRoots(env, msg, gs[1..], s1);
      if rest.Ok? { PrependFrom([r.value], rest.value); } else { assert Prepend([r.value], rest) == Err(rest.error); }
    }
  }

  lemma PrependError<T, U>(done: seq<T>, r: Result<U, Error>)
    ensures r.Err? ==> Prepend(done, Err(r.error)) == Err(r.error)
  {
  }

  lemma NoRoots(env: Env, msg: Message, s: Scan)
    ensures ReportRoots(env, msg, [], s) == (Ok([]), s)
  {
  }

  method EvaluateWithResults(env: Env, msg: Message, rule: Rule) returns (r: Result<Report, Error>)
    ensures r == Engine.EvaluateWithResults(env, msg, rule)
  {
    hide Engine.ReportGroup, Unreached, ReportRoots, Prepend;
    var n := |rule.groups|;
    if n == 0 { return Ok(Report(true, map[], [])); }
    var s := Scan(NEW_EXTRAS, map[]);
    var all := seq(n, _ => NOT_REACHED);
    var i := 0;
    PrependNone([], ReportRoots(env, msg, rule.groups, s).0);
    while i < n
      invariant 0 <= i <= n == |all|
      invariant forall g <- all[..i] :: g.passed
      invariant forall k :: i <= k < n ==> all[k] == NOT_REACHED
      invariant var (rest, s2) := ReportRoots(env, msg, rule.groups[i..], s);
        ReportRoots(env, msg, rule.groups, Scan(NEW_EXTRAS, map[])) == (Prepend(all[..i], rest), s2)
    {
      assert rule.groups[i..][1..] == rule.groups[i + 1..];
      OneRoot(env, msg, rule.groups[i..], s);
      var gr;
      gr, s := ReportGroup(env, msg, rule.groups[i], s);
      PrependError(all[..i], gr);
      if gr.Err? { return Err(gr.error); }
      ghost var before := all[..i];
      all := all[i := gr.value];
      assert all[..i + 1] == before + [gr.value];
      if !gr.value.passed {
        assert all == before + ([gr.value] + Unreached(n - i - 1));
        PrependFrom(before, [gr.value] + Unreached(n - i - 1));
        assert all[i] in all && !all[i].passed;
        return Ok(Report(false, s.captures, all));
      }
      PrependOne(before, gr.value, ReportRoots(env, msg, rule.groups[i + 1..], s).0);
      i := i + 1;
    }
    assert all[..n] == all && rule.groups[n..] == [];
    NoRoots(env, msg, s);
    PrependNone(all, ReportRoots(env, msg, [], s).0);
    r := Ok(Report(true, s.captures, all));
  }
}
