/** `RulesRepo` of internal/db/rules.go: methods that change the tables in place, each proved to do what the functions
    on tables say. */
module RuleObjects {
  import opened Wrappers
  import opened RuleTypes
  import opened GroupTree
  import opened RuleStore
  import opened RuleRoundTrip
  import opened RuleOrder
  import opened CatchAllProofs

  /** A Go map of slices: a missing key reads as an empty slice. */
  function At<T>(m: map<int, seq<T>>, key: int): seq<T> {
    if key in m then m[key] else []
  }

  lemma GroupsOfOne(rows: seq<GroupRow>, row: GroupRow, id: int)
    ensures GroupsOf(rows + [row], id) == GroupsOf(rows, id) + (if row.ruleId == id then [row] else [])
  {
    GroupsOfAppend(rows, [row], id);
    assert [row][1..] == [];
  }

  /** The loop of `buildGroupTree`, which calls itself for each row it takes. */
  method BuildTree(all: seq<Row<int>>, parent: Option<int>) returns (out: seq<Node<int>>)
    requires OneRowPerId(all) && Rooted(all, parent)
    ensures out == BuildFrom(all, parent, 0)
    decreases |all| - Depth(all, parent)
  {
    out := [];
    for i := 0 to |all|
      invariant out + BuildFrom(all, parent, i) == BuildFrom(all, parent, 0)
    {
      if all[i].parent == parent {
        ChildDeeper(all, parent, all[i]);
        var subs := BuildTree(all, Some(all[i].id));
        out := out + [Node(all[i].id, all[i].operator, all[i].conditions, subs)];
      }
    }
  }

  class RulesRepo {
    var rules: seq<RuleRow>
    var groups: seq<GroupRow>
    var conditions: seq<ConditionRow>
    var actions: seq<ActionRow>
    var nextRule: int
    var nextGroup: int
    var nextCondition: int
    var nextAction: int

    function State(): Tables
      reads this
    {
      Tables(rules, groups, conditions, actions, nextRule, nextGroup, nextCondition, nextAction)
    }

    constructor ()
      ensures rules == [] && WellKept(State())
    {
      rules, groups, conditions, actions := [], [], [], [];
      nextRule, nextGroup, nextCondition, nextAction := 1, 1, 1, 1;
    }

    // ----- writing -----

    method SaveGroup(ruleId: int, g: Group, parent: Option<int>)
      modifies this
      ensures State() == RuleStore.SaveGroup(old(State()), ruleId, g, parent)
      decreases g
    {
      var id := nextGroup;
      groups, nextGroup := groups + [GroupRow(id, ruleId, parent, g.operator)], id + 1;
      ghost var t1 := State();
      for i := 0 to |g.conditions|
        invariant InsertConditions(State(), id, g.conditions[i..]) == InsertConditions(t1, id, g.conditions)
      {
        conditions, nextCondition := conditions + [ConditionRow(nextCondition, id, g.conditions[i])], nextCondition + 1;
        assert g.conditions[i..][1..] == g.conditions[i + 1..];
      }
      ghost var t2 := State();
      for i := 0 to |g.groups|
        invariant SaveGroups(State(), ruleId, g.groups[i..], Some(id)) == SaveGroups(t2, ruleId, g.groups, Some(id))
      {
        SaveGroup(ruleId, g.groups[i], Some(id));
        assert g.groups[i..][1..] == g.groups[i + 1..];
      }
    }

    method SaveConditions(ruleId: int, gs: seq<Group>)
      modifies this
      ensures State() == SaveGroups(old(State()), ruleId, gs, None)
    {
      for i := 0 to |gs|
        invariant SaveGroups(State(), ruleId, gs[i..], None) == SaveGroups(old(State()), ruleId, gs, None)
      {
        SaveGroup(ruleId, gs[i], None);
        assert gs[i..][1..] == gs[i + 1..];
      }
    }

    method SaveActions(ruleId: int, list: seq<Action>)
      modifies this
      ensures State() == RuleStore.SaveActions(old(State()), ruleId, list)
    {
      for i := 0 to |list|
        invariant RuleStore.SaveActions(State(), ruleId, list[i..]) == RuleStore.SaveActions(old(State()), ruleId, list)
      {
        actions, nextAction := actions + [ActionRow(nextAction, ruleId, list[i])], nextAction + 1;
        assert list[i..][1..] == list[i + 1..];
      }
    }

    method Create(rule: Rule) returns (id: int)
      modifies this
      ensures id == old(nextRule) && State() == RuleStore.Create(old(State()), rule)
    {
      id := nextRule;
      rules, nextRule := rules + [RowOf(rule, id)], id + 1;
      SaveConditions(id, rule.groups);
      SaveActions(id, rule.actions);
    }

    /** The DELETE on condition_groups; `cascade` says whether the connection enforces foreign keys. */
    method DeleteGroups(ruleId: int, cascade: bool)
      modifies this
      ensures State() == old(State()).(
        groups := DropGroups(old(groups), ruleId),
        conditions := if cascade then DropConditions(old(conditions), GroupIdsOf(old(groups), ruleId))
          else old(conditions))
    {
      if cascade { conditions := DropConditions(conditions, GroupIdsOf(groups, ruleId)); }
      groups := DropGroups(groups, ruleId);
    }

    method Update(rule: Rule, cascade: bool)
      modifies this
      ensures State() == RuleStore.Update(old(State()), rule, cascade)
    {
      rules := UpdateRows(rules, RowOf(rule, rule.id));
      DeleteGroups(rule.id, cascade);
      actions := DropActions(actions, rule.id);
      SaveConditions(rule.id, rule.groups);
      SaveActions(rule.id, rule.actions);
    }

    method Reorder(ids: seq<int>)
      modifies this
      ensures State() == old(State()).(rules := RuleOrder.Reorder(old(rules), ids))
    {
      var pri := 0;
      for i := 0 to |ids|
        invariant SetPriorities(rules, ids[i..], pri) == SetPriorities(old(rules), ids, 0)
        invariant State() == old(State()).(rules := rules)
      {
        assert ids[i..][1..] == ids[i + 1..];
        if ids[i] <= 0 { continue; }
        rules := SetPriority(rules, ids[i], pri);
        pri := pri + 1;
      }
      rules := PutCatchAllLast(rules);
    }

    method EnsureCatchAll(cascade: bool)
      modifies this
      ensures State() == RuleOrder.EnsureCatchAll(old(State()), cascade)
    {
      var found := CatchAllId(rules);
      if found.Some? {
        DeleteGroups(found.value, cascade);
        if !HasMove(actions, found.value) {
          actions, nextAction := actions + [ActionRow(nextAction, found.value, TO_INBOX)], nextAction + 1;
        }
        rules := PutCatchAllLast(rules);
        return;
      }
      var maxPri := MaxPriority(rules);
      var pri := 999;
      if maxPri.Some? { pri := maxPri.value + 1; }
      var id := nextRule;
      rules := rules + [RuleRow(id, CATCH_ALL, "Built-in catch-all — moves unmatched mail to Inbox", pri, true,
                                "", "", "")];
      nextRule := id + 1;
      actions, nextAction := actions + [ActionRow(nextAction, id, TO_INBOX)], nextAction + 1;
    }

    // ----- reading -----

    method AllConditionGroups() returns (out: map<int, seq<GroupRow>>)
      ensures forall id :: At(out, id) == GroupsOf(groups, id)
    {
      out := map[];
      for i := 0 to |groups|
        invariant forall id :: At(out, id) == GroupsOf(groups[..i], id)
      {
        var g := groups[i];
        assert groups[..i + 1] == groups[..i] + [g];
        forall id { GroupsOfOne(groups[..i], g, id); }
        out := out[g.ruleId := At(out, g.ruleId) + [g]];
      }
      assert groups[..|groups|] == groups;
    }

    /** The conditions of the groups in `wanted`, or of all groups. */
    method ConditionsByGroup(wanted: Option<set<int>>) returns (out: map<int, seq<Condition>>)
      ensures forall id :: wanted.None? || id in wanted.value ==> At(out, id) == ConditionsOf(conditions, id)
    {
      out := map[];
      for i := 0 to |conditions|
        invariant forall id :: wanted.None? || id in wanted.value ==> At(out, id) == ConditionsOf(conditions[..i], id)
      {
        var c := conditions[i];
        assert conditions[..i + 1] == conditions[..i] + [c];
        forall id { ConditionsOfAppend(conditions[..i], c, id); }
        if wanted.None? || c.groupId in wanted.value {
          out := out[c.groupId := At(out, c.groupId) + [c.condition]];
        }
      }
      assert conditions[..|conditions|] == conditions;
    }

    method AllActions() returns (out: map<int, seq<Action>>)
      ensures forall id :: At(out, id) == ActionsOf(actions, id)
    {
      out := map[];
      for i := 0 to |actions|
        invariant forall id :: At(out, id) == ActionsOf(actions[..i], id)
      {
        var a := actions[i];
        assert actions[..i + 1] == actions[..i] + [a];
        forall id { ActionsOfAppend(actions[..i], a, id); }
        out := out[a.ruleId := At(out, a.ruleId) + [a.action]];
      }
      assert actions[..|actions|] == actions;
    }

    /** Attach each group's conditions and build the tree. */
    method Assemble(rows: seq<GroupRow>, byGroup: map<int, seq<Condition>>, ghost ruleId: int)
      returns (forest: seq<Group>)
      requires WellKept(State()) && rows == GroupsOf(groups, ruleId)
      requires forall g <- rows :: At(byGroup, g.id) == ConditionsOf(conditions, g.id)
      ensures forest == LoadGroups(State(), ruleId)
    {
      hide WellKept, GroupsOf, ConditionsOf, Strip, BuildFrom, OneRowPerId, Rooted;
      var all: seq<Row<int>> := [];
      for j := 0 to |rows|
        invariant all == Attach(rows, conditions)[..j]
      {
        all := all + [Row(rows[j].id, rows[j].parent, rows[j].operator, At(byGroup, rows[j].id))];
      }
      assert all == Attach(rows, conditions);
      LoadedIdsUnique(State(), ruleId);
      RootRooted(all);
      var tree := BuildTree(all, None);
      forest := Strip(tree);
    }

    method Hydrate(row: RuleRow, groupsByRule: map<int, seq<GroupRow>>, byGroup: map<int, seq<Condition>>,
                   actionsByRule: map<int, seq<Action>>) returns (rule: Rule)
      requires WellKept(State())
      requires At(groupsByRule, row.id) == GroupsOf(groups, row.id)
          && At(actionsByRule, row.id) == ActionsOf(actions, row.id)
      requires forall g <- GroupsOf(groups, row.id) :: At(byGroup, g.id) == ConditionsOf(conditions, g.id)
      ensures rule == ReadRule(State(), row)
    {
      hide WellKept, LoadGroups, GroupsOf, ConditionsOf, ActionsOf;
      var forest := Assemble(At(groupsByRule, row.id), byGroup, row.id);
      rule := Rule(row.id, row.name, row.description, row.priority, row.enabled, row.days, row.start, row.end,
                   forest, At(actionsByRule, row.id));
    }

    /** `loadAll`: a fixed number of queries, whatever the number of rules. */
    method LoadAll(rows: seq<RuleRow>) returns (out: seq<Rule>)
      requires WellKept(State())
      ensures |out| == |rows| && forall i :: 0 <= i < |rows| ==> out[i] == ReadRule(State(), rows[i])
    {
      hide ReadRule, GroupsOf, ConditionsOf, ActionsOf, WellKept;
      out := [];
      if |rows| == 0 { return; }
      var groupsByRule := AllConditionGroups();
      var byGroup := ConditionsByGroup(None);
      var actionsByRule := AllActions();
      for i := 0 to |rows|
        invariant |out| == i && forall k :: 0 <= k < i ==> out[k] == ReadRule(State(), rows[k])
      {
        var rule := Hydrate(rows[i], groupsByRule, byGroup, actionsByRule);
        out := out + [rule];
      }
    }

    method List() returns (out: seq<Rule>)
      requires WellKept(State())
      ensures out == ListRules(State())
    {
      out := LoadAll(Listed(rules));
      hide WellKept, Listed, ReadRule;
    }

    /** `Get` reads one rule's rows by themselves; it finds what `List` shows under the same id. */
    method Get(id: int) returns (r: Option<Rule>)
      requires WellKept(State())
      ensures r.None? <==> forall row <- rules :: row.id != id
      ensures r.Some? ==> r.value.id == id && r.value in ListRules(State())
    {
      r := None;
      for i := 0 to |rules|
        invariant r.None? && forall j :: 0 <= j < i ==> rules[j].id != id
      {
        if rules[i].id == id {
          var row := rules[i];
          var byGroup := ConditionsByGroup(Some(GroupIdsOf(groups, id)));
          var forest := LoadOne(id, byGroup);
          r := Some(Rule(id, row.name, row.description, row.priority, row.enabled, row.days, row.start, row.end,
                         forest, ActionsOf(actions, id)));
          ListShows(State(), row);
          assert row in rules;
          return;
        }
      }
    }

    method LoadOne(id: int, byGroup: map<int, seq<Condition>>) returns (forest: seq<Group>)
      requires WellKept(State())
      requires forall g <- GroupIdsOf(groups, id) :: At(byGroup, g) == ConditionsOf(conditions, g)
      ensures forest == LoadGroups(State(), id)
    {
      var rows := GroupsOf(groups, id);
      GroupsOfKeepsOrder(groups, id);
      forall g | g in rows ensures At(byGroup, g.id) == ConditionsOf(conditions, g.id) {
        assert g.id in GroupIdsOf(groups, id);
      }
      forest := Assemble(rows, byGroup, id);
    }
  }

  lemma ListShows(t: Tables, row: RuleRow)
    requires WellKept(t) && row in t.rules
    ensures ReadRule(t, row) in ListRules(t)
  {
    WellKeptKeys(t);
    ListedMeaning(t.rules);
    hide WellKept, Listed, LoadGroups;
    var rows := Listed(t.rules);
    var i :| 0 <= i < |rows| && rows[i] == row;
    assert ListRules(t)[i] == ReadRule(t, row);
  }
}
