/** The portable form of a rule (internal/db/ruleexport.go) and what a round trip through it keeps. */
module RuleExport {
  import opened Wrappers
  import opened RuleTypes
  import Engine

  datatype ConditionExport = ConditionExport(field: string, operator: string, value: string)

  datatype GroupExport = GroupExport(operator: string, conditions: seq<ConditionExport>, groups: seq<GroupExport>)

  datatype ActionExport = ActionExport(kind: string, value: string)

  datatype Export = Export(
    name: string, description: string, priority: int, enabled: bool, operator: string,
    scheduleDays: string, scheduleStart: string, scheduleEnd: string,
    conditions: seq<ConditionExport>, groups: seq<GroupExport>, actions: seq<ActionExport>)

  // ----- writing -----

  function ConditionsOut(cs: seq<Condition>): (r: seq<ConditionExport>)
    ensures |r| == |cs|
  {
    seq(|cs|, i requires 0 <= i < |cs| => ConditionExport(cs[i].field, cs[i].operator, cs[i].value))
  }

  function GroupToExport(g: Group): GroupExport
    decreases g, 1
  {
    GroupExport(g.operator, ConditionsOut(g.conditions), GroupsOut(g.groups))
  }

  function GroupsOut(gs: seq<Group>): (r: seq<GroupExport>)
    ensures |r| == |gs|
    decreases gs, 0
  {
    if gs == [] then [] else [GroupToExport(gs[0])] + GroupsOut(gs[1..])
  }

  function ActionsOut(actions: seq<Action>): seq<ActionExport> {
    seq(|actions|, i requires 0 <= i < |actions| => ActionExport(actions[i].kind, actions[i].value))
  }

  /** `ruleToExport`: a single group without subgroups is written flat. */
  function RuleToExport(rule: Rule): Export {
    var flat := |rule.groups| == 1 && rule.groups[0].groups == [];
    Export(rule.name, rule.description, rule.priority, rule.enabled,
           if flat then rule.groups[0].operator else "",
           rule.scheduleDays, rule.scheduleStart, rule.scheduleEnd,
           if flat then ConditionsOut(rule.groups[0].conditions) else [],
           if flat then [] else GroupsOut(rule.groups),
           ActionsOut(rule.actions))
  }

  // ----- reading -----

  function AndOrElseOr(operator: string): string {
    if operator in {"AND", "OR"} then operator else "OR"
  }

  function ConditionsIn(cs: seq<ConditionExport>): (r: seq<Condition>)
    ensures |r| == |cs| && forall i :: 0 <= i < |cs| ==> r[i] == Condition(cs[i].field, cs[i].operator, cs[i].value)
  {
    seq(|cs|, i requires 0 <= i < |cs| => Condition(cs[i].field, cs[i].operator, cs[i].value))
  }

  function GroupToRule(g: GroupExport): Group
    decreases g, 1
  {
    Group(AndOrElseOr(g.operator), ConditionsIn(g.conditions), GroupsIn(g.groups))
  }

  function GroupsIn(gs: seq<GroupExport>): (r: seq<Group>)
    ensures |r| == |gs|
    decreases gs, 0
  {
    if gs == [] then [] else [GroupToRule(gs[0])] + GroupsIn(gs[1..])
  }

  function ActionsIn(actions: seq<ActionExport>): seq<Action> {
    seq(|actions|, i requires 0 <= i < |actions| => Action(actions[i].kind, actions[i].value))
  }

  /** `ruleExportToRule`: flat conditions win over groups. */
  function ExportToRule(re: Export, name: string): Rule {
    Rule(0, name, re.description, re.priority, re.enabled, re.scheduleDays, re.scheduleStart, re.scheduleEnd,
         if re.conditions != [] then [Group(AndOrElseOr(re.operator), ConditionsIn(re.conditions), [])]
         else GroupsIn(re.groups),
         ActionsIn(re.actions))
  }

  // ----- the round trip -----

  /** The same forest with every other operator read as OR. */
  function Coerced(gs: seq<Group>): (r: seq<Group>)
    ensures |r| == |gs|
    decreases gs
  {
    if gs == [] then []
    else [Group(AndOrElseOr(gs[0].operator), gs[0].conditions, Coerced(gs[0].groups))] + Coerced(gs[1..])
  }

  lemma {:induction false} CoercedIff(gs: seq<Group>)
    ensures Coerced(gs) == gs <==> AllAndOr(gs)
    decreases gs
  {
    if gs == [] {
    } else {
      CoercedIff(gs[0].groups);
      CoercedIff(gs[1..]);
      var head := Group(AndOrElseOr(gs[0].operator), gs[0].conditions, Coerced(gs[0].groups));
      assert ([head] + Coerced(gs[1..]))[0] == head && ([head] + Coerced(gs[1..]))[1..] == Coerced(gs[1..]);
      assert gs == [gs[0]] + gs[1..];
    }
  }

  lemma ConditionsBack(cs: seq<Condition>)
    ensures ConditionsIn(ConditionsOut(cs)) == cs
  {
  }

  lemma {:induction false} GroupsBack(gs: seq<Group>)
    ensures GroupsIn(GroupsOut(gs)) == Coerced(gs)
    decreases gs
  {
    if gs == [] {
    } else {
      ConditionsBack(gs[0].conditions);
      GroupsBack(gs[0].groups);
      GroupsBack(gs[1..]);
      var head, rest := GroupToExport(gs[0]), GroupsOut(gs[1..]);
      assert ([head] + rest)[1..] == rest;
    }
  }

  /** One root group with nothing in it. */
  predicate EmptyRoot(gs: seq<Group>) {
    |gs| == 1 && gs[0].conditions == [] && gs[0].groups == []
  }

  /** Main result. Reading back what was written gives every field of the rule again, except that other
      operators become OR and a single empty root group disappears. */
  lemma ExportRoundTrip(rule: Rule)
    ensures ExportToRule(RuleToExport(rule), rule.name) ==
            rule.(id := 0, groups := if EmptyRoot(rule.groups) then [] else Coerced(rule.groups))
  {
    var gs := rule.groups;
    assert ActionsIn(ActionsOut(rule.actions)) == rule.actions;
    if |gs| == 1 && gs[0].groups == [] {
      ConditionsBack(gs[0].conditions);
      assert gs[1..] == [] && Coerced(gs) == [Group(AndOrElseOr(gs[0].operator), gs[0].conditions, [])];
    } else {
      GroupsBack(gs);
    }
  }

  /** An exported rule has conditions or groups, not both, and names an operator for conditions only; so nothing of it
      goes unlooked at when it is imported. */
  lemma NeverBoth(rule: Rule)
    ensures var re := RuleToExport(rule);
      && (re.conditions == [] || re.groups == []) && (re.operator == "" || re.groups == [])
      && (re.groups == [] ==> rule.groups == [] || re.operator == rule.groups[0].operator)
      && (re.groups == [] && rule.groups == [] ==> re.operator == "")
  {
  }

  /** Main result. The forest comes back unchanged exactly when its operators are AND and OR and it is not a
      single empty root group. */
  lemma ForestSurvivesIff(rule: Rule)
    ensures ExportToRule(RuleToExport(rule), rule.name).groups == rule.groups
        <==> AllAndOr(rule.groups) && !EmptyRoot(rule.groups)
  {
    ExportRoundTrip(rule);
    CoercedIff(rule.groups);
  }

  /** In the excluded case, AND keeps its verdict on every message; OR goes from never to always. */
  lemma EmptyRootVerdict(env: Engine.Env, msg: Engine.Message, rule: Rule)
    requires EmptyRoot(rule.groups) && rule.groups[0].operator in {"AND", "OR"}
    ensures Engine.Evaluate(env, msg, rule).result == Ok(rule.groups[0].operator == "AND")
    ensures Engine.Evaluate(env, msg, ExportToRule(RuleToExport(rule), rule.name)).result == Ok(true)
  {
    ExportRoundTrip(rule);
    var g := rule.groups[0];
    assert rule.groups[1..] == [];
    var s := Engine.Scan(Engine.NEW_EXTRAS, map[]);
    assert Engine.EvalGroup(env, msg, g, s).0 == Ok(g.operator == "AND");
    assert Engine.EvalRoots(env, msg, rule.groups, s).0 == Ok(g.operator == "AND");
  }

  lemma {:induction false} ImportedAndOr(gs: seq<GroupExport>)
    ensures AllAndOr(GroupsIn(gs))
    decreases gs
  {
    if gs == [] {
    } else {
      ImportedAndOr(gs[0].groups);
      ImportedAndOr(gs[1..]);
    }
  }

  /** Whatever the file says, an imported rule has only AND and OR. */
  lemma ImportedOperators(re: Export, name: string)
    ensures AllAndOr(ExportToRule(re, name).groups)
  {
    ImportedAndOr(re.groups);
    if re.conditions != [] {
      var g := Group(AndOrElseOr(re.operator), ConditionsIn(re.conditions), []);
      assert AllAndOr(g.groups) && AndOr(g);
      assert [g][1..] == [] && AllAndOr([g]);
    }
  }
}
