/** Create and Update, read back. */
module RuleRoundTrip {
  import opened Wrappers
  import opened RuleTypes
  import opened GroupTree
  import opened RuleStore
  import opened RuleStoreProofs
  import opened Seqs

  // ----- the conditions of a save -----

  lemma {:induction false} ConditionsOfAppend(rows: seq<ConditionRow>, row: ConditionRow, id: int)
    ensures ConditionsOf(rows + [row], id)
        == ConditionsOf(rows, id) + (if row.groupId == id then [row.condition] else [])
    decreases |rows|
  {
    if rows == [] {
    } else {
      assert (rows + [row])[1..] == rows[1..] + [row];
      ConditionsOfAppend(rows[1..], row, id);
      Concat(if rows[0].groupId == id then [rows[0].condition] else [], ConditionsOf(rows[1..], id),
             if row.groupId == id then [row.condition] else []);
    }
  }

  lemma {:induction false} ConditionsOfNone(rows: seq<ConditionRow>, id: int)
    requires forall r <- rows :: r.groupId != id
    ensures ConditionsOf(rows, id) == []
  {
    if rows == [] {
    } else {
      assert rows[0] in rows;
      ConditionsOfNone(rows[1..], id);
    }
  }

  lemma {:induction false} InsertConditionsRead(t: Tables, groupId: int, cs: seq<Condition>, id: int)
    ensures ConditionsOf(InsertConditions(t, groupId, cs).conditions, id)
         == ConditionsOf(t.conditions, id) + (if id == groupId then cs else [])
    decreases |cs|
  {
    if cs == [] {
      assert ConditionsOf(t.conditions, id) + [] == ConditionsOf(t.conditions, id);
    } else {
      var row := ConditionRow(t.nextCondition, groupId, cs[0]);
      ConditionsOfAppend(t.conditions, row, id);
      InsertConditionsRead(t.(conditions := t.conditions + [row], nextCondition := t.nextCondition + 1), groupId,
                           cs[1..], id);
      hide ConditionsOf;
      if id == groupId {
        Concat(ConditionsOf(t.conditions, id), [cs[0]], cs[1..]);
        assert [cs[0]] + cs[1..] == cs;
      } else {
        assert ConditionsOf(t.conditions, id) + [] + [] == ConditionsOf(t.conditions, id) + [];
      }
    }
  }

  /** Saving groups gives no conditions to groups that are not among them. */
  lemma {:induction false} SaveGroupsSpares(t: Tables, ruleId: int, gs: seq<Group>, parent: Option<int>, id: int)
    requires id < t.nextGroup
    ensures ConditionsOf(SaveGroups(t, ruleId, gs, parent).conditions, id) == ConditionsOf(t.conditions, id)
    decreases gs, 0
  {
    hide ConditionsOf;
    if gs == [] {
    } else {
      SaveGroupSpares(t, ruleId, gs[0], parent, id);
      SaveGroupAppends(t, ruleId, gs[0], parent);
      SaveGroupsSpares(SaveGroup(t, ruleId, gs[0], parent), ruleId, gs[1..], parent, id);
    }
  }

  lemma {:induction false} SaveGroupSpares(t: Tables, ruleId: int, g: Group, parent: Option<int>, id: int)
    requires id < t.nextGroup
    ensures ConditionsOf(SaveGroup(t, ruleId, g, parent).conditions, id) == ConditionsOf(t.conditions, id)
    decreases g, 1
  {
    hide ConditionsOf;
    var own := t.nextGroup;
    var t1 := t.(groups := t.groups + [GroupRow(own, ruleId, parent, g.operator)], nextGroup := own + 1);
    InsertConditionsRead(t1, own, g.conditions, id);
    assert ConditionsOf(t.conditions, id) + [] == ConditionsOf(t.conditions, id);
    InsertConditionsElsewhere(t1, own, g.conditions);
    SaveGroupsSpares(InsertConditions(t1, own, g.conditions), ruleId, g.groups, Some(own), id);
  }

  /** The rows give each group of the forest its own conditions. */
  ghost predicate Carries(rows: seq<ConditionRow>, gs: seq<Group>, base: int)
    decreases gs
  {
    gs == [] || (&& ConditionsOf(rows, base) == gs[0].conditions
                 && Carries(rows, gs[0].groups, base + 1)
                 && Carries(rows, gs[1..], base + Size(gs[0])))
  }

  /** That depends on nothing but the conditions of those groups. */
  lemma {:induction false} CarriesSame(rows: seq<ConditionRow>, rows': seq<ConditionRow>, gs: seq<Group>, base: int)
    requires Carries(rows, gs, base)
    requires forall id :: base <= id < base + SizeAll(gs) ==> ConditionsOf(rows', id) == ConditionsOf(rows, id)
    ensures Carries(rows', gs, base)
    decreases gs
  {
    hide ConditionsOf;
    if gs == [] {
    } else {
      CarriesSame(rows, rows', gs[0].groups, base + 1);
      CarriesSame(rows, rows', gs[1..], base + Size(gs[0]));
    }
  }

  ghost predicate NoConditionsYet(t: Tables) {
    forall id :: t.nextGroup <= id ==> ConditionsOf(t.conditions, id) == []
  }

  /** Groups not created yet still have no conditions after a save. */
  lemma {:induction false} SaveGroupsFresh(t: Tables, ruleId: int, gs: seq<Group>, parent: Option<int>)
    requires NoConditionsYet(t)
    ensures NoConditionsYet(SaveGroups(t, ruleId, gs, parent))
    decreases gs, 0
  {
    hide NoConditionsYet;
    if gs == [] {
    } else {
      SaveGroupFresh(t, ruleId, gs[0], parent);
      SaveGroupsFresh(SaveGroup(t, ruleId, gs[0], parent), ruleId, gs[1..], parent);
    }
  }

  lemma {:induction false} SaveGroupFresh(t: Tables, ruleId: int, g: Group, parent: Option<int>)
    requires NoConditionsYet(t)
    ensures NoConditionsYet(SaveGroup(t, ruleId, g, parent))
    decreases g, 1
  {
    var t2 := Opened(t, ruleId, g, parent);
    OpenedRead(t, ruleId, g, parent);
    hide NoConditionsYet;
    SaveGroupsFresh(t2, ruleId, g.groups, Some(t.nextGroup));
  }

  /** The tables with the group's own row and conditions. */
  function Opened(t: Tables, ruleId: int, g: Group, parent: Option<int>): Tables {
    InsertConditions(t.(groups := t.groups + [GroupRow(t.nextGroup, ruleId, parent, g.operator)],
                        nextGroup := t.nextGroup + 1),
                     t.nextGroup, g.conditions)
  }

  lemma OpenedRead(t: Tables, ruleId: int, g: Group, parent: Option<int>)
    requires NoConditionsYet(t)
    ensures var u := Opened(t, ruleId, g, parent);
      && u.nextGroup == t.nextGroup + 1
      && NoConditionsYet(u)
      && ConditionsOf(u.conditions, t.nextGroup) == g.conditions
  {
    var own := t.nextGroup;
    var t1 := t.(groups := t.groups + [GroupRow(own, ruleId, parent, g.operator)], nextGroup := own + 1);
    InsertConditionsElsewhere(t1, own, g.conditions);
    hide ConditionsOf;
    InsertConditionsRead(t1, own, g.conditions, own);
    assert [] + g.conditions == g.conditions;
    var u := Opened(t, ruleId, g, parent);
    forall id | u.nextGroup <= id ensures ConditionsOf(u.conditions, id) == [] {
      InsertConditionsRead(t1, own, g.conditions, id);
    }
  }

  lemma {:induction false} SaveGroupsCarries(t: Tables, ruleId: int, gs: seq<Group>, parent: Option<int>)
    requires NoConditionsYet(t)
    ensures Carries(SaveGroups(t, ruleId, gs, parent).conditions, gs, t.nextGroup)
    decreases gs
  {
    if gs == [] {
    } else {
      hide ConditionsOf, NoConditionsYet;
      var own := t.nextGroup;
      var t2 := Opened(t, ruleId, gs[0], parent);
      var t3 := SaveGroups(t2, ruleId, gs[0].groups, Some(own));
      var t4 := SaveGroups(t3, ruleId, gs[1..], parent);
      assert t4 == SaveGroups(t, ruleId, gs, parent);
      OpenedRead(t, ruleId, gs[0], parent);
      SaveGroupsFresh(t2, ruleId, gs[0].groups, Some(own));
      SaveGroupsAppends(t2, ruleId, gs[0].groups, Some(own));
      SaveGroupsSpares(t2, ruleId, gs[0].groups, Some(own), own);
      SaveGroupsSpares(t3, ruleId, gs[1..], parent, own);
      SaveGroupsCarries(t2, ruleId, gs[0].groups, Some(own));
      SaveGroupsCarries(t3, ruleId, gs[1..], parent);
      hide SaveGroups;
      forall id | own + 1 <= id < own + 1 + SizeAll(gs[0].groups)
        ensures ConditionsOf(t4.conditions, id) == ConditionsOf(t3.conditions, id)
      {
        SaveGroupsSpares(t3, ruleId, gs[1..], parent, id);
      }
      CarriesSame(t3.conditions, t4.conditions, gs[0].groups, own + 1);
    }
  }

  lemma AttachAppend(a: seq<GroupRow>, b: seq<GroupRow>, conds: seq<ConditionRow>)
    ensures Attach(a + b, conds) == Attach(a, conds) + Attach(b, conds)
  {
  }

  /** The written rows with their conditions attached are the block the tree is built from. */
  lemma {:induction false} AttachBlock(gs: seq<Group>, ruleId: int, parent: Option<int>, base: int,
                                       conds: seq<ConditionRow>)
    requires Carries(conds, gs, base)
    ensures Attach(GroupBlock(gs, ruleId, parent, base), conds) == Block(gs, parent, base)
    decreases gs
  {
    if gs == [] {
    } else {
      hide ConditionsOf;
      var row := [GroupRow(base, ruleId, parent, gs[0].operator)];
      var inner := GroupBlock(gs[0].groups, ruleId, Some(base), base + 1);
      var outer := GroupBlock(gs[1..], ruleId, parent, base + Size(gs[0]));
      AttachBlock(gs[0].groups, ruleId, Some(base), base + 1, conds);
      AttachBlock(gs[1..], ruleId, parent, base + Size(gs[0]), conds);
      AttachAppend(row + inner, outer, conds);
      AttachAppend(row, inner, conds);
      assert Attach(row, conds) == [Row(base, parent, gs[0].operator, gs[0].conditions)];
    }
  }

  // ----- tables stay well kept -----

  ghost predicate NumberedGroups(rows: seq<GroupRow>, base: int, ruleId: int) {
    forall i :: 0 <= i < |rows| ==> rows[i].id == base + i && rows[i].ruleId == ruleId
  }

  lemma NumberedGroupsConcat(a: seq<GroupRow>, b: seq<GroupRow>, base: int, ruleId: int)
    requires NumberedGroups(a, base, ruleId) && NumberedGroups(b, base + |a|, ruleId)
    ensures NumberedGroups(a + b, base, ruleId)
  {
  }

  lemma {:induction false} GroupBlockRows(gs: seq<Group>, ruleId: int, parent: Option<int>, base: int)
    ensures NumberedGroups(GroupBlock(gs, ruleId, parent, base), base, ruleId)
    decreases gs
  {
    if gs == [] {
    } else {
      var row := [GroupRow(base, ruleId, parent, gs[0].operator)];
      var inner := GroupBlock(gs[0].groups, ruleId, Some(base), base + 1);
      var outer := GroupBlock(gs[1..], ruleId, parent, base + Size(gs[0]));
      GroupBlockRows(gs[0].groups, ruleId, Some(base), base + 1);
      GroupBlockRows(gs[1..], ruleId, parent, base + Size(gs[0]));
      assert NumberedGroups(row, base, ruleId);
      hide NumberedGroups;
      NumberedGroupsConcat(row, inner, base, ruleId);
      NumberedGroupsConcat(row + inner, outer, base, ruleId);
    }
  }

  lemma {:induction false} InsertConditionsWellKept(t: Tables, groupId: int, cs: seq<Condition>)
    requires WellKept(t) && groupId < t.nextGroup
    ensures WellKept(InsertConditions(t, groupId, cs))
    decreases |cs|
  {
    if cs == [] {
    } else {
      ConditionKept(t, ConditionRow(t.nextCondition, groupId, cs[0]));
      hide WellKept;
      InsertConditionsWellKept(t.(conditions := t.conditions + [ConditionRow(t.nextCondition, groupId, cs[0])],
                                  nextCondition := t.nextCondition + 1), groupId, cs[1..]);
    }
  }

  lemma ConditionKept(t: Tables, row: ConditionRow)
    requires WellKept(t) && row.id == t.nextCondition && row.groupId < t.nextGroup
    ensures WellKept(t.(conditions := t.conditions + [row], nextCondition := row.id + 1))
  {
  }

  lemma GroupKept(t: Tables, row: GroupRow)
    requires WellKept(t) && row.id == t.nextGroup && row.ruleId < t.nextRule
    ensures WellKept(t.(groups := t.groups + [row], nextGroup := row.id + 1))
  {
  }

  lemma {:induction false} SaveGroupsWellKept(t: Tables, ruleId: int, gs: seq<Group>, parent: Option<int>)
    requires WellKept(t) && ruleId < t.nextRule
    ensures WellKept(SaveGroups(t, ruleId, gs, parent)) && SaveGroups(t, ruleId, gs, parent).nextRule == t.nextRule
    decreases gs, 0
  {
    hide WellKept;
    if gs == [] {
    } else {
      SaveGroupWellKept(t, ruleId, gs[0], parent);
      SaveGroupsWellKept(SaveGroup(t, ruleId, gs[0], parent), ruleId, gs[1..], parent);
    }
  }

  lemma {:induction false} SaveGroupWellKept(t: Tables, ruleId: int, g: Group, parent: Option<int>)
    requires WellKept(t) && ruleId < t.nextRule
    ensures WellKept(SaveGroup(t, ruleId, g, parent)) && SaveGroup(t, ruleId, g, parent).nextRule == t.nextRule
    decreases g, 1
  {
    hide WellKept;
    var own := t.nextGroup;
    var row := GroupRow(own, ruleId, parent, g.operator);
    GroupKept(t, row);
    var t1 := t.(groups := t.groups + [row], nextGroup := own + 1);
    InsertConditionsElsewhere(t1, own, g.conditions);
    InsertConditionsWellKept(t1, own, g.conditions);
    SaveGroupsWellKept(InsertConditions(t1, own, g.conditions), ruleId, g.groups, Some(own));
  }

  lemma {:induction false} SaveActionsAppends(t: Tables, ruleId: int, actions: seq<Action>)
    requires WellKept(t) && ruleId < t.nextRule
    ensures var r := SaveActions(t, ruleId, actions);
      && WellKept(r)
      && r == t.(actions := r.actions, nextAction := r.nextAction)
      && ActionsOf(r.actions, ruleId) == ActionsOf(t.actions, ruleId) + actions
      && forall other :: other != ruleId ==> ActionsOf(r.actions, other) == ActionsOf(t.actions, other)
    decreases |actions|
  {
    if actions != [] {
      var row := ActionRow(t.nextAction, ruleId, actions[0]);
      var t1 := t.(actions := t.actions + [row], nextAction := t.nextAction + 1);
      ActionKept(t, row);
      SaveActionsAppends(t1, ruleId, actions[1..]);
      forall id { ActionsOfAppend(t.actions, row, id); }
      hide WellKept, ActionsOf;
      assert ActionsOf(t.actions, ruleId) + [actions[0]] + actions[1..] == ActionsOf(t.actions, ruleId) + actions;
    } else {
      assert ActionsOf(t.actions, ruleId) + [] == ActionsOf(t.actions, ruleId);
    }
  }

  lemma ActionKept(t: Tables, row: ActionRow)
    requires WellKept(t) && row.id == t.nextAction && row.ruleId < t.nextRule
    ensures WellKept(t.(actions := t.actions + [row], nextAction := t.nextAction + 1))
  {
  }

  lemma {:induction false} ActionsOfAppend(rows: seq<ActionRow>, row: ActionRow, id: int)
    ensures ActionsOf(rows + [row], id) == ActionsOf(rows, id) + (if row.ruleId == id then [row.action] else [])
    decreases |rows|
  {
    if rows == [] {
    } else {
      assert (rows + [row])[1..] == rows[1..] + [row];
      ActionsOfAppend(rows[1..], row, id);
      Concat(if rows[0].ruleId == id then [rows[0].action] else [], ActionsOf(rows[1..], id),
             if row.ruleId == id then [row.action] else []);
    }
  }

  // ----- reading after a save -----

  lemma {:induction false} GroupsOfAppend(a: seq<GroupRow>, b: seq<GroupRow>, ruleId: int)
    ensures GroupsOf(a + b, ruleId) == GroupsOf(a, ruleId) + GroupsOf(b, ruleId)
    decreases |a|
  {
    if a == [] {
      assert a + b == b;
    } else {
      assert (a + b)[1..] == a[1..] + b;
      GroupsOfAppend(a[1..], b, ruleId);
      Concat(if a[0].ruleId == ruleId then [a[0]] else [], GroupsOf(a[1..], ruleId), GroupsOf(b, ruleId));
    }
  }

  lemma {:induction false} GroupsOfUniform(rows: seq<GroupRow>, ruleId: int, other: int)
    requires forall g <- rows :: g.ruleId == ruleId
    ensures GroupsOf(rows, other) == if other == ruleId then rows else []
    decreases |rows|
  {
    if rows == [] {
    } else {
      assert rows[0] in rows;
      GroupsOfUniform(rows[1..], ruleId, other);
    }
  }

  /** The rows of the rule, with their conditions, are one block. */
  lemma SavedRows(t: Tables, ruleId: int, gs: seq<Group>)
    requires WellKept(t) && GroupsOf(t.groups, ruleId) == []
    ensures var t' := SaveGroups(t, ruleId, gs, None);
      Attach(GroupsOf(t'.groups, ruleId), t'.conditions) == Block(gs, None, t.nextGroup)
  {
    SaveGroupsAppends(t, ruleId, gs, None);
    FreshGroupsHaveNone(t);
    hide WellKept, SaveGroups, GroupsOf, Block, GroupBlock, Carries, Attach, NoConditionsYet;
    GroupsOfSaved(t.groups, ruleId, gs, t.nextGroup);
    SaveGroupsCarries(t, ruleId, gs, None);
    AttachBlock(gs, ruleId, None, t.nextGroup, SaveGroups(t, ruleId, gs, None).conditions);
  }

  lemma FreshGroupsHaveNone(t: Tables)
    requires WellKept(t)
    ensures NoConditionsYet(t)
  {
    forall id | t.nextGroup <= id ensures ConditionsOf(t.conditions, id) == [] {
      ConditionsOfNone(t.conditions, id);
    }
  }

  lemma GroupsOfSaved(groups: seq<GroupRow>, ruleId: int, gs: seq<Group>, base: int)
    requires GroupsOf(groups, ruleId) == []
    ensures GroupsOf(groups + GroupBlock(gs, ruleId, None, base), ruleId) == GroupBlock(gs, ruleId, None, base)
  {
    var block := GroupBlock(gs, ruleId, None, base);
    GroupBlockRows(gs, ruleId, None, base);
    hide GroupBlock;
    GroupsOfAppend(groups, block, ruleId);
    GroupsOfUniform(block, ruleId, ruleId);
    assert [] + block == block;
  }

  /** Main result of the table encoding. Saving a forest for a rule that has no groups yet, into tables
      holding anything else, and reading it back gives the same forest. */
  lemma SavedForestReadBack(t: Tables, ruleId: int, gs: seq<Group>)
    requires WellKept(t) && ruleId < t.nextRule && GroupsOf(t.groups, ruleId) == []
    ensures WellKept(SaveGroups(t, ruleId, gs, None))
    ensures LoadGroups(SaveGroups(t, ruleId, gs, None), ruleId) == gs
  {
    hide WellKept, SaveGroups, GroupsOf, Block, BuildGroupTree, Strip, Attach;
    SaveGroupsWellKept(t, ruleId, gs, None);
    SavedRows(t, ruleId, gs);
    var t' := SaveGroups(t, ruleId, gs, None);
    LoadedIdsUnique(t', ruleId);
    BlockIsForest(gs, t.nextGroup);
  }

  lemma LoadedIdsUnique(t: Tables, ruleId: int)
    requires WellKept(t)
    ensures OneRowPerId(Attach(GroupsOf(t.groups, ruleId), t.conditions))
  {
    GroupsOfKeepsOrder(t.groups, ruleId);
  }

  lemma BlockIsForest(gs: seq<Group>, base: int)
    requires OneRowPerId(Block(gs, None, base))
    ensures Strip(BuildGroupTree(Block(gs, None, base))) == gs
  {
    var all := Block(gs, None, base);
    RootRooted(all);
    assert [] + all + [] == all;
    BuildBlock(all, [], gs, None, base, []);
    BuildEnd(all, None);
    assert gs + [] == gs;
    hide Block;
  }

  // ----- other rules -----

  /** What a rule's loaded state depends on. */
  ghost predicate SameRule(t: Tables, u: Tables, ruleId: int) {
    && GroupsOf(u.groups, ruleId) == GroupsOf(t.groups, ruleId)
    && (forall g <- GroupsOf(t.groups, ruleId) :: ConditionsOf(u.conditions, g.id) == ConditionsOf(t.conditions, g.id))
    && ActionsOf(u.actions, ruleId) == ActionsOf(t.actions, ruleId)
  }

  lemma SameRuleLoadsSame(t: Tables, u: Tables, ruleId: int)
    requires WellKept(t) && WellKept(u) && SameRule(t, u, ruleId)
    ensures LoadTree(u, ruleId) == LoadTree(t, ruleId)
  {
    var rows := GroupsOf(t.groups, ruleId);
    forall i | 0 <= i < |rows|
      ensures ConditionsOf(u.conditions, rows[i].id) == ConditionsOf(t.conditions, rows[i].id)
    {
      assert rows[i] in rows;
    }
    assert Attach(rows, u.conditions) == Attach(rows, t.conditions);
    hide BuildGroupTree, WellKept, ConditionsOf;
  }

  /** A save leaves every other rule as it was. */
  lemma SaveSparesOthers(t: Tables, ruleId: int, gs: seq<Group>, other: int)
    requires WellKept(t) && other != ruleId
    ensures SameRule(t, SaveGroups(t, ruleId, gs, None), other)
  {
    SaveGroupsAppends(t, ruleId, gs, None);
    var u := SaveGroups(t, ruleId, gs, None);
    var block := GroupBlock(gs, ruleId, None, t.nextGroup);
    GroupBlockRows(gs, ruleId, None, t.nextGroup);
    GroupsOfKeepsOrder(t.groups, other);
    assert forall g <- t.groups :: g.id < t.nextGroup;
    hide WellKept, SaveGroups, GroupBlock, GroupsOf, ConditionsOf, ActionsOf;
    GroupsOfAppend(t.groups, block, other);
    GroupsOfUniform(block, ruleId, other);
    assert GroupsOf(t.groups, other) + [] == GroupsOf(t.groups, other);
    forall g | g in GroupsOf(t.groups, other)
      ensures ConditionsOf(u.conditions, g.id) == ConditionsOf(t.conditions, g.id)
    {
      SaveGroupsSpares(t, ruleId, gs, None, g.id);
    }
  }

  // ----- Create -----

  /** Main result. A created rule is read back with its groups and actions, and every rule created before
      is loaded as before. */
  lemma CreateRoundTrip(t: Tables, rule: Rule, other: int)
    requires WellKept(t) && other != t.nextRule
    ensures var u := Create(t, rule); var id := t.nextRule;
      && WellKept(u)
      && LoadGroups(u, id) == rule.groups
      && ActionsOf(u.actions, id) == rule.actions
      && u.rules == t.rules + [RuleRow(id, rule.name, rule.description, rule.priority, rule.enabled,
                                       rule.scheduleDays, rule.scheduleStart, rule.scheduleEnd)]
      && LoadTree(u, other) == LoadTree(t, other)
      && ActionsOf(u.actions, other) == ActionsOf(t.actions, other)
  {
    var id := t.nextRule;
    var t1 := t.(rules := t.rules + [RowOf(rule, id)], nextRule := id + 1);
    FreshRuleHasNothing(t, id);
    RuleRowKept(t, RowOf(rule, id));
    hide WellKept, LoadTree, LoadGroups, Save, GroupsOf, ActionsOf;
    OnlyActionsDiffer(t, t1, other);
    SaveRoundTrip(t1, rule, id, other);
  }

  lemma RuleRowKept(t: Tables, row: RuleRow)
    requires WellKept(t) && row.id == t.nextRule
    ensures WellKept(t.(rules := t.rules + [row], nextRule := row.id + 1))
  {
  }

  lemma FreshRuleHasNothing(t: Tables, id: int)
    requires WellKept(t) && t.nextRule <= id
    ensures GroupsOf(t.groups, id) == [] && ActionsOf(t.actions, id) == []
  {
    NoGroupsOf(t.groups, id);
    NoActionsOf(t.actions, id);
  }

  lemma {:induction false} NoGroupsOf(rows: seq<GroupRow>, id: int)
    requires forall g <- rows :: g.ruleId != id
    ensures GroupsOf(rows, id) == []
  {
    if rows == [] {
    } else {
      assert rows[0] in rows;
      NoGroupsOf(rows[1..], id);
    }
  }

  lemma {:induction false} NoActionsOf(rows: seq<ActionRow>, id: int)
    requires forall a <- rows :: a.ruleId != id
    ensures ActionsOf(rows, id) == []
  {
    if rows == [] {
    } else {
      assert rows[0] in rows;
      NoActionsOf(rows[1..], id);
    }
  }

  lemma SaveRoundTrip(t: Tables, rule: Rule, id: int, other: int)
    requires WellKept(t) && id < t.nextRule && other != id
    requires GroupsOf(t.groups, id) == [] && ActionsOf(t.actions, id) == []
    ensures var u := Save(t, rule, id);
      && WellKept(u) && u.rules == t.rules && u.nextRule == t.nextRule
      && LoadGroups(u, id) == rule.groups
      && ActionsOf(u.actions, id) == rule.actions
      && LoadTree(u, other) == LoadTree(t, other)
      && ActionsOf(u.actions, other) == ActionsOf(t.actions, other)
  {
    SavedForestReadBack(t, id, rule.groups);
    var t1 := SaveGroups(t, id, rule.groups, None);
    assert t1.rules == t.rules && t1.actions == t.actions && t1.nextRule == t.nextRule by {
      SaveGroupsAppends(t, id, rule.groups, None);
    }
    SaveSparesOthers(t, id, rule.groups, other);
    SameRuleLoadsSame(t, t1, other);
    SaveActionsAppends(t1, id, rule.actions);
    var u := SaveActions(t1, id, rule.actions);
    assert [] + rule.actions == rule.actions;
    OnlyActionsDiffer(t1, u, id);
    OnlyActionsDiffer(t1, u, other);
    hide WellKept, SaveGroups, SaveActions, LoadTree, Strip, ActionsOf;
  }

  lemma OnlyActionsDiffer(t: Tables, u: Tables, id: int)
    requires WellKept(t) && WellKept(u) && u.groups == t.groups && u.conditions == t.conditions
    ensures LoadTree(u, id) == LoadTree(t, id)
  {
    hide WellKept, BuildGroupTree, GroupsOf, Attach;
  }

  // ----- Update -----

  lemma {:induction false} DropGroupsKeeps(groups: seq<GroupRow>, ruleId: int)
    requires forall i, j :: 0 <= i < j < |groups| ==> groups[i].id < groups[j].id
    ensures var r := DropGroups(groups, ruleId);
      && (forall g <- r :: g in groups)
      && (forall i, j :: 0 <= i < j < |r| ==> r[i].id < r[j].id)
    decreases |groups|
  {
    if groups == [] {
    } else {
      DropGroupsKeeps(groups[1..], ruleId);
      var rest := DropGroups(groups[1..], ruleId);
      forall j | 0 <= j < |rest| ensures groups[0].id < rest[j].id {
        assert rest[j] in groups[1..];
      }
    }
  }

  lemma {:induction false} DropGroupsRead(groups: seq<GroupRow>, ruleId: int, other: int)
    ensures GroupsOf(DropGroups(groups, ruleId), other) == if other == ruleId then [] else GroupsOf(groups, other)
    decreases |groups|
  {
    if groups == [] {
    } else {
      DropGroupsRead(groups[1..], ruleId, other);
      var rest := DropGroups(groups[1..], ruleId);
      assert ([groups[0]] + rest)[1..] == rest && [] + rest == rest;
      assert [] + GroupsOf(groups[1..], other) == GroupsOf(groups[1..], other);
    }
  }

  lemma {:induction false} DropActionsKeeps(actions: seq<ActionRow>, ruleId: int)
    requires forall i, j :: 0 <= i < j < |actions| ==> actions[i].id < actions[j].id
    ensures var r := DropActions(actions, ruleId);
      && (forall a <- r :: a in actions)
      && (forall i, j :: 0 <= i < j < |r| ==> r[i].id < r[j].id)
    decreases |actions|
  {
    if actions == [] {
    } else {
      DropActionsKeeps(actions[1..], ruleId);
      var rest := DropActions(actions[1..], ruleId);
      forall j | 0 <= j < |rest| ensures actions[0].id < rest[j].id {
        assert rest[j] in actions[1..];
      }
    }
  }

  lemma {:induction false} DropActionsRead(actions: seq<ActionRow>, ruleId: int, other: int)
    ensures ActionsOf(DropActions(actions, ruleId), other) == if other == ruleId then [] else ActionsOf(actions, other)
    decreases |actions|
  {
    if actions == [] {
    } else {
      DropActionsRead(actions[1..], ruleId, other);
      var rest := DropActions(actions[1..], ruleId);
      assert ([actions[0]] + rest)[1..] == rest && [] + rest == rest;
      assert [] + ActionsOf(actions[1..], other) == ActionsOf(actions[1..], other);
    }
  }

  lemma {:induction false} DropConditionsKeeps(conditions: seq<ConditionRow>, dropped: set<int>)
    requires forall i, j :: 0 <= i < j < |conditions| ==> conditions[i].id < conditions[j].id
    ensures var r := DropConditions(conditions, dropped);
      && (forall c <- r :: c in conditions)
      && (forall i, j :: 0 <= i < j < |r| ==> r[i].id < r[j].id)
    decreases |conditions|
  {
    if conditions == [] {
    } else {
      DropConditionsKeeps(conditions[1..], dropped);
      var rest := DropConditions(conditions[1..], dropped);
      forall j | 0 <= j < |rest| ensures conditions[0].id < rest[j].id {
        assert rest[j] in conditions[1..];
      }
    }
  }

  lemma {:induction false} DropConditionsRead(conditions: seq<ConditionRow>, dropped: set<int>, id: int)
    requires id !in dropped
    ensures ConditionsOf(DropConditions(conditions, dropped), id) == ConditionsOf(conditions, id)
    decreases |conditions|
  {
    if conditions == [] {
    } else {
      DropConditionsRead(conditions[1..], dropped, id);
      var rest := DropConditions(conditions[1..], dropped);
      assert ([conditions[0]] + rest)[1..] == rest && [] + rest == rest;
      assert [] + ConditionsOf(conditions[1..], id) == ConditionsOf(conditions[1..], id);
    }
  }

  /** The tables once the old groups and actions of a rule are gone. */
  function Cleared(t: Tables, ruleId: int, cascade: bool): Tables {
    t.(groups := DropGroups(t.groups, ruleId),
       conditions := if cascade then DropConditions(t.conditions, GroupIdsOf(t.groups, ruleId)) else t.conditions,
       actions := DropActions(t.actions, ruleId))
  }

  lemma FewerGroups(t: Tables, ruleId: int)
    requires WellKept(t)
    ensures WellKept(t.(groups := DropGroups(t.groups, ruleId)))
  {
    DropGroupsKeeps(t.groups, ruleId);
    hide DropGroups;
  }

  lemma FewerConditions(t: Tables, dropped: set<int>)
    requires WellKept(t)
    ensures WellKept(t.(conditions := DropConditions(t.conditions, dropped)))
  {
    DropConditionsKeeps(t.conditions, dropped);
    hide DropConditions;
  }

  lemma FewerActions(t: Tables, ruleId: int)
    requires WellKept(t)
    ensures WellKept(t.(actions := DropActions(t.actions, ruleId)))
  {
    DropActionsKeeps(t.actions, ruleId);
    hide DropActions;
  }

  lemma ClearedWellKept(t: Tables, ruleId: int, cascade: bool)
    requires WellKept(t)
    ensures WellKept(Cleared(t, ruleId, cascade))
  {
    hide WellKept, DropGroups, DropActions, DropConditions, GroupIdsOf;
    var dropped := GroupIdsOf(t.groups, ruleId);
    FewerGroups(t, ruleId);
    var t1 := t.(groups := DropGroups(t.groups, ruleId));
    FewerConditions(t1, dropped);
    var t2 := if cascade then t1.(conditions := DropConditions(t.conditions, dropped)) else t1;
    FewerActions(t2, ruleId);
  }

  lemma ClearedRead(t: Tables, ruleId: int, cascade: bool, other: int)
    requires WellKept(t) && other != ruleId
    ensures var u := Cleared(t, ruleId, cascade);
      && SameRule(t, u, other)
      && GroupsOf(u.groups, ruleId) == [] && ActionsOf(u.actions, ruleId) == []
  {
    var u := Cleared(t, ruleId, cascade);
    GroupsOfKeepsOrder(t.groups, other);
    hide DropGroups, DropActions, DropConditions, GroupsOf, ActionsOf, ConditionsOf, WellKept, GroupIdsOf;
    DropGroupsRead(t.groups, ruleId, other);
    DropGroupsRead(t.groups, ruleId, ruleId);
    DropActionsRead(t.actions, ruleId, other);
    DropActionsRead(t.actions, ruleId, ruleId);
    forall g | g in GroupsOf(t.groups, other)
      ensures ConditionsOf(u.conditions, g.id) == ConditionsOf(t.conditions, g.id)
    {
      OtherRuleOtherIds(t, ruleId, g);
      DropConditionsRead(t.conditions, GroupIdsOf(t.groups, ruleId), g.id);
    }
  }

  lemma OtherRuleOtherIds(t: Tables, ruleId: int, g: GroupRow)
    requires WellKept(t) && g in t.groups && g.ruleId != ruleId
    ensures g.id !in GroupIdsOf(t.groups, ruleId)
  {
    var i :| 0 <= i < |t.groups| && t.groups[i] == g;
    forall j | 0 <= j < |t.groups| && t.groups[j].ruleId == ruleId ensures t.groups[j].id != g.id {
      assert i < j || j < i;
    }
  }

  lemma {:induction false} UpdateRowsMeaning(rows: seq<RuleRow>, row: RuleRow)
    ensures var r := UpdateRows(rows, row);
      |r| == |rows| && forall i :: 0 <= i < |rows| ==> r[i] == if rows[i].id == row.id then row else rows[i]
  {
    if rows == [] {
    } else {
      UpdateRowsMeaning(rows[1..], row);
    }
  }

  /** Main result. An updated rule is read back as given, and `Update` changes no other rule, whether or
      not the connection enforces foreign keys. */
  lemma UpdateRoundTrip(t: Tables, rule: Rule, cascade: bool, other: int)
    requires WellKept(t) && rule.id < t.nextRule && other != rule.id
    ensures var u := Update(t, rule, cascade);
      && WellKept(u)
      && LoadGroups(u, rule.id) == rule.groups
      && ActionsOf(u.actions, rule.id) == rule.actions
      && |u.rules| == |t.rules|
      && (forall i :: 0 <= i < |t.rules| ==>
            u.rules[i] == if t.rules[i].id != rule.id then t.rules[i]
                          else RuleRow(rule.id, rule.name, rule.description, rule.priority, rule.enabled,
                                       rule.scheduleDays, rule.scheduleStart, rule.scheduleEnd))
      && LoadTree(u, other) == LoadTree(t, other)
      && ActionsOf(u.actions, other) == ActionsOf(t.actions, other)
  {
    var t0 := t.(rules := UpdateRows(t.rules, RowOf(rule, rule.id)));
    UpdateRowsMeaning(t.rules, RowOf(rule, rule.id));
    UpdatedRowsKept(t, t0);
    SameRuleLoadsSame(t, t0, other);
    ClearedWellKept(t0, rule.id, cascade);
    ClearedRead(t0, rule.id, cascade, other);
    var t1 := Cleared(t0, rule.id, cascade);
    SameRuleLoadsSame(t0, t1, other);
    SaveRoundTrip(t1, rule, rule.id, other);
    hide WellKept, LoadTree, LoadGroups, Save, UpdateRows, GroupsOf, ConditionsOf;
  }

  lemma UpdatedRowsKept(t: Tables, u: Tables)
    requires WellKept(t) && u == t.(rules := u.rules)
    requires |u.rules| == |t.rules| && forall i :: 0 <= i < |t.rules| ==> u.rules[i].id == t.rules[i].id
    ensures WellKept(u)
  {
  }
}
