/**
 The rule tables of internal/db/rules.go: rules, condition groups, conditions and actions as rows with
 AUTOINCREMENT ids, written depth first and read back through the group tree.
*/
module RuleStore {
  import opened Wrappers
  import opened RuleTypes
  import opened GroupTree

  datatype RuleRow = RuleRow(
    id: int, name: string, description: string, priority: int, enabled: bool,
    days: string, start: string, end: string)

  datatype GroupRow = GroupRow(id: int, ruleId: int, parent: Option<int>, operator: string)

  datatype ConditionRow = ConditionRow(id: int, groupId: int, condition: Condition)

  datatype ActionRow = ActionRow(id: int, ruleId: int, action: Action)

  datatype Tables = Tables(
    rules: seq<RuleRow>, groups: seq<GroupRow>, conditions: seq<ConditionRow>, actions: seq<ActionRow>,
    nextRule: int, nextGroup: int, nextCondition: int, nextAction: int)

  // ----- writing -----

  function InsertConditions(t: Tables, groupId: int, cs: seq<Condition>): Tables
    decreases |cs|
  {
    if cs == [] then t
    else InsertConditions(t.(conditions := t.conditions + [ConditionRow(t.nextCondition, groupId, cs[0])],
                             nextCondition := t.nextCondition + 1),
                          groupId, cs[1..])
  }

  /** The closure `saveGroup`: the group's row, its conditions, then its subgroups. */
  function SaveGroup(t: Tables, ruleId: int, g: Group, parent: Option<int>): Tables
    decreases g, 1
  {
    var id := t.nextGroup;
    var t1 := t.(groups := t.groups + [GroupRow(id, ruleId, parent, g.operator)], nextGroup := id + 1);
    SaveGroups(InsertConditions(t1, id, g.conditions), ruleId, g.groups, Some(id))
  }

  function SaveGroups(t: Tables, ruleId: int, gs: seq<Group>, parent: Option<int>): Tables
    decreases gs, 0
  {
    if gs == [] then t
    else SaveGroups(SaveGroup(t, ruleId, gs[0], parent), ruleId, gs[1..], parent)
  }

  function SaveActions(t: Tables, ruleId: int, actions: seq<Action>): Tables
    decreases |actions|
  {
    if actions == [] then t
    else SaveActions(t.(actions := t.actions + [ActionRow(t.nextAction, ruleId, actions[0])],
                        nextAction := t.nextAction + 1),
                     ruleId, actions[1..])
  }

  function RowOf(rule: Rule, id: int): RuleRow {
    RuleRow(id, rule.name, rule.description, rule.priority, rule.enabled,
            rule.scheduleDays, rule.scheduleStart, rule.scheduleEnd)
  }

  function Save(t: Tables, rule: Rule, id: int): Tables {
    SaveActions(SaveGroups(t, id, rule.groups, None), id, rule.actions)
  }

  function Create(t: Tables, rule: Rule): Tables {
    Save(t.(rules := t.rules + [RowOf(rule, t.nextRule)], nextRule := t.nextRule + 1), rule, t.nextRule)
  }

  function DropGroups(groups: seq<GroupRow>, ruleId: int): seq<GroupRow> {
    if groups == [] then []
    else (if groups[0].ruleId == ruleId then [] else [groups[0]]) + DropGroups(groups[1..], ruleId)
  }

  function DropActions(actions: seq<ActionRow>, ruleId: int): seq<ActionRow> {
    if actions == [] then []
    else (if actions[0].ruleId == ruleId then [] else [actions[0]]) + DropActions(actions[1..], ruleId)
  }

  /** What ON DELETE CASCADE does to the conditions, on a connection that enforces foreign keys. */
  function DropConditions(conditions: seq<ConditionRow>, dropped: set<int>): seq<ConditionRow> {
    if conditions == [] then []
    else (if conditions[0].groupId in dropped then [] else [conditions[0]]) + DropConditions(conditions[1..], dropped)
  }

  function GroupIdsOf(groups: seq<GroupRow>, ruleId: int): set<int> {
    set g | g in groups && g.ruleId == ruleId :: g.id
  }

  function UpdateRows(rows: seq<RuleRow>, row: RuleRow): seq<RuleRow> {
    if rows == [] then []
    else [if rows[0].id == row.id then row else rows[0]] + UpdateRows(rows[1..], row)
  }

  /** `Update`; `cascade` says whether foreign keys are enforced. */
  function Update(t: Tables, rule: Rule, cascade: bool): Tables {
    var t1 := t.(rules := UpdateRows(t.rules, RowOf(rule, rule.id)),
                 groups := DropGroups(t.groups, rule.id),
                 conditions := if cascade then DropConditions(t.conditions, GroupIdsOf(t.groups, rule.id))
                   else t.conditions,
                 actions := DropActions(t.actions, rule.id));
    Save(t1, rule, rule.id)
  }

  // ----- reading -----

  function GroupsOf(groups: seq<GroupRow>, ruleId: int): seq<GroupRow> {
    if groups == [] then []
    else (if groups[0].ruleId == ruleId then [groups[0]] else []) + GroupsOf(groups[1..], ruleId)
  }

  function ConditionsOf(conditions: seq<ConditionRow>, groupId: int): seq<Condition> {
    if conditions == [] then []
    else (if conditions[0].groupId == groupId then [conditions[0].condition] else [])
         + ConditionsOf(conditions[1..], groupId)
  }

  function ActionsOf(actions: seq<ActionRow>, ruleId: int): seq<Action> {
    if actions == [] then []
    else (if actions[0].ruleId == ruleId then [actions[0].action] else []) + ActionsOf(actions[1..], ruleId)
  }

  function Attach(groups: seq<GroupRow>, conditions: seq<ConditionRow>): (rows: seq<Row<int>>)
    ensures |rows| == |groups|
  {
    seq(|groups|, i requires 0 <= i < |groups| =>
      Row(groups[i].id, groups[i].parent, groups[i].operator, ConditionsOf(conditions, groups[i].id)))
  }

  /** Ids grow along each table and stay below the next one; conditions name groups that were once created. */
  ghost predicate WellKept(t: Tables) {
    && (forall i, j :: 0 <= i < j < |t.rules| ==> t.rules[i].id < t.rules[j].id)
    && (forall i, j :: 0 <= i < j < |t.groups| ==> t.groups[i].id < t.groups[j].id)
    && (forall i, j :: 0 <= i < j < |t.conditions| ==> t.conditions[i].id < t.conditions[j].id)
    && (forall i, j :: 0 <= i < j < |t.actions| ==> t.actions[i].id < t.actions[j].id)
    && (forall r <- t.rules :: r.id < t.nextRule)
    && (forall g <- t.groups :: g.id < t.nextGroup && g.ruleId < t.nextRule)
    && (forall c <- t.conditions :: c.groupId < t.nextGroup && c.id < t.nextCondition)
    && (forall a <- t.actions :: a.id < t.nextAction && a.ruleId < t.nextRule)
  }

  ghost predicate DistinctIds(rows: seq<RuleRow>) {
    forall i, j :: 0 <= i < j < |rows| ==> rows[i].id != rows[j].id
  }

  lemma {:induction false} GroupsOfKeepsOrder(groups: seq<GroupRow>, ruleId: int)
    requires forall i, j :: 0 <= i < j < |groups| ==> groups[i].id < groups[j].id
    ensures var r := GroupsOf(groups, ruleId);
      && (forall i, j :: 0 <= i < j < |r| ==> r[i].id < r[j].id)
      && (forall g <- r :: g in groups && g.ruleId == ruleId)
  {
    if groups == [] {
    } else {
      GroupsOfKeepsOrder(groups[1..], ruleId);
      var rest := GroupsOf(groups[1..], ruleId);
      forall j | 0 <= j < |rest| ensures groups[0].id < rest[j].id {
        assert rest[j] in groups[1..];
      }
    }
  }

  /** The groups of one rule as a tree, as `Get` and `List` both assemble them. */
  function LoadTree(t: Tables, ruleId: int): seq<Node<int>>
    requires WellKept(t)
  {
    GroupsOfKeepsOrder(t.groups, ruleId);
    BuildGroupTree(Attach(GroupsOf(t.groups, ruleId), t.conditions))
  }

  function LoadGroups(t: Tables, ruleId: int): seq<Group>
    requires WellKept(t)
  {
    Strip(LoadTree(t, ruleId))
  }
}
