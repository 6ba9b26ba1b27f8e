/**
 The condition form of internal/web/rules.go and its template: a forest printed as parallel arrays with
 path ids, and the parser that turns submitted arrays into a forest.
*/
module FormCodec {
  import opened Wrappers
  import opened Text
  import opened RuleTypes
  import opened GroupTree

  const FIELDS := ["from", "to", "cc", "subject", "body", "has_attachment", "content_type", "header"]

  const OPERATORS := [
    "contains", "not_contains", "equals", "not_equals", "starts_with", "ends_with", "matches_regex", "exists",
      "not_exists",
    "older_than", "newer_than", "before", "after"]

  /** A select submits the option that carries its value, or its first option. */
  function Choose(options: seq<string>, value: string): string
    requires options != []
  {
    if value in options then value else options[0]
  }

  // ----- printing -----

  datatype ConditionView = ConditionView(group: string, field: string, operator: string, value: string,
                                         headerName: string)

  datatype GroupView =
    GroupView(path: string, parent: string, operator: string, conditions: seq<ConditionView>, children: seq<GroupView>)

  function Stem(parent: string): string {
    if parent == "" then "g" else parent + "."
  }

  /** "g0" for a root, "g0.1" for a subgroup. */
  function PathOf(parent: string, i: nat): string {
    Stem(parent) + Decimal(i)
  }

  function ViewOf(c: Condition, path: string): ConditionView {
    if IsHeader(c.field) then ConditionView(path, "header", c.operator, c.value, HeaderName(c.field))
    else ConditionView(path, c.field, c.operator, c.value, "")
  }

  function ViewsOf(cs: seq<Condition>, path: string): (views: seq<ConditionView>)
    ensures |views| == |cs| && forall i :: 0 <= i < |cs| ==> views[i] == ViewOf(cs[i], path)
  {
    if cs == [] then [] else [ViewOf(cs[0], path)] + ViewsOf(cs[1..], path)
  }

  /** `buildGroupView`. */
  function BuildGroupView(g: Group, path: string, parent: string): GroupView
    decreases g, 1
  {
    GroupView(path, parent, if g.operator in {"AND", "OR"} then g.operator else "OR",
              ViewsOf(g.conditions, path), BuildGroupViews(g.groups, path, 0))
  }

  /** The loops over root groups and over subgroups, from the i-th on. */
  function BuildGroupViews(gs: seq<Group>, parent: string, i: nat): seq<GroupView>
    decreases gs, 0
  {
    if gs == [] then []
    else [BuildGroupView(gs[0], PathOf(parent, i), parent)] + BuildGroupViews(gs[1..], parent, i + 1)
  }

  /** One group's inputs on the page; its subgroups' inputs follow. */
  datatype GroupInputs = GroupInputs(path: string, parent: string, operator: string, conditions: seq<ConditionView>)

  /** The template's document order. */
  function Document(views: seq<GroupView>): seq<GroupInputs>
    decreases views
  {
    if views == [] then []
    else
      [GroupInputs(views[0].path, views[0].parent, views[0].operator, views[0].conditions)]
      + Document(views[0].children) + Document(views[1..])
  }

  function ConditionRows(blocks: seq<GroupInputs>): seq<ConditionView> {
    if blocks == [] then [] else blocks[0].conditions + ConditionRows(blocks[1..])
  }

  datatype Form = Form(
    groupIds: seq<string>, groupParents: seq<string>, groupOps: seq<string>,
    condGroups: seq<string>, fields: seq<string>, headerNames: seq<string>, ops: seq<string>, vals: seq<string>,
    condOperator: string)

  /** What the browser submits, name by name in document order. */
  function Submit(views: seq<GroupView>): Form {
    var blocks := Document(views);
    var rows := ConditionRows(blocks);
    Form(seq(|blocks|, i requires 0 <= i < |blocks| => blocks[i].path),
         seq(|blocks|, i requires 0 <= i < |blocks| => blocks[i].parent),
         seq(|blocks|, i requires 0 <= i < |blocks| => Choose(["AND", "OR"], blocks[i].operator)),
         seq(|rows|, i requires 0 <= i < |rows| => rows[i].group),
         seq(|rows|, i requires 0 <= i < |rows| => Choose(FIELDS, rows[i].field)),
         seq(|rows|, i requires 0 <= i < |rows| => rows[i].headerName),
         seq(|rows|, i requires 0 <= i < |rows| => Choose(OPERATORS, rows[i].operator)),
         seq(|rows|, i requires 0 <= i < |rows| => rows[i].value),
         "")
  }

  const EMPTY_ROOT := GroupView("g0", "", "OR", [], [])

  /** The page for a rule; one without groups shows `rootGroupView`. */
  function Print(gs: seq<Group>): Form {
    Submit(if gs == [] then [EMPTY_ROOT] else BuildGroupViews(gs, "", 0))
  }

  // ----- parsing -----

  datatype GNode = GNode(parent: string, operator: string, conditions: seq<Condition>, children: seq<string>)

  type Nodes = map<string, GNode>

  function ParentAt(form: Form, i: nat): string {
    if i < |form.groupParents| then form.groupParents[i] else ""
  }

  function OpAt(form: Form, i: nat): string {
    if i < |form.groupOps| && form.groupOps[i] != "" then form.groupOps[i] else "OR"
  }

  /** The nodes after the first n group ids; a repeated id replaces its node. */
  function NodesUpTo(form: Form, n: nat): (nodes: Nodes)
    requires n <= |form.groupIds|
    ensures forall id :: id in nodes <==> id in form.groupIds[..n]
  {
    if n == 0 then map[]
    else
      assert form.groupIds[..n] == form.groupIds[..n - 1] + [form.groupIds[n - 1]];
      NodesUpTo(form, n - 1)[form.groupIds[n - 1] := GNode(ParentAt(form, n - 1), OpAt(form, n - 1), [], [])]
  }

  function ConditionAt(form: Form, i: nat): Condition
    requires i < |form.fields| && i < |form.ops| && i < |form.vals|
  {
    Condition(
      if form.fields[i] == "header" && i < |form.headerNames| && form.headerNames[i] != ""
      then "header:" + form.headerNames[i] else form.fields[i],
      form.ops[i], form.vals[i])
  }

  predicate BadRegex(compiles: string -> bool, c: Condition) {
    c.operator == "matches_regex" && !compiles(c.value)
  }

  function AddCondition(nodes: Nodes, gid: string, c: Condition): (r: Nodes)
    ensures r.Keys == nodes.Keys
  {
    if gid in nodes then nodes[gid := nodes[gid].(conditions := nodes[gid].conditions + [c])] else nodes
  }

  /** The conditions from the i-th on, each put into the group it names; an error carries the bad pattern. */
  function AddConditions(form: Form, compiles: string -> bool, nodes: Nodes, i: nat): (r: Result<Nodes, string>)
    requires i <= |form.fields|
    ensures r.Ok? ==> r.value.Keys == nodes.Keys
    decreases |form.fields| - i
  {
    if i == |form.fields| then Ok(nodes)
    else if i >= |form.ops| || i >= |form.vals| then AddConditions(form, compiles, nodes, i + 1)
    else
      var c := ConditionAt(form, i);
      if BadRegex(compiles, c) then Err(c.value)
      else AddConditions(form, compiles,
                         AddCondition(nodes, if i < |form.condGroups| then form.condGroups[i] else "", c), i + 1)
  }

  /** The submitted groups in order, as rows whose parent "" means none. */
  function RowsOf(order: seq<string>, nodes: Nodes): (rows: seq<Row<string>>)
    requires forall id <- order :: id in nodes
    ensures |rows| == |order| && OneRowPerId(rows)
  {
    seq(|order|, i requires 0 <= i < |order| =>
      var n := nodes[order[i]];
      Row(order[i], if n.parent == "" then None else Some(n.parent), n.operator, n.conditions))
  }

  /** The older format: conditions without groups. */
  function FlatConditions(form: Form, compiles: string -> bool, i: nat): Result<seq<Condition>, string>
    requires i <= |form.fields|
    decreases |form.fields| - i
  {
    if i == |form.fields| then Ok([])
    else if i >= |form.ops| || i >= |form.vals| then FlatConditions(form, compiles, i + 1)
    else
      var c := ConditionAt(form, i);
      if BadRegex(compiles, c) then Err(c.value)
      else match FlatConditions(form, compiles, i + 1)
        case Err(e) => Err(e)
        case Ok(rest) => Ok([c] + rest)
  }

  const NO_CONDITIONS := Group("OR", [], [])

  /** `parseConditions`, for any arrays at all. */
  function ParseConditions(form: Form, compiles: string -> bool): Result<seq<Group>, string> {
    if form.groupIds != [] then
      assert form.groupIds[..|form.groupIds|] == form.groupIds;
      match AddConditions(form, compiles, NodesUpTo(form, |form.groupIds|), 0)
      case Err(e) => Err(e)
      case Ok(nodes) =>
        var groups := Strip(BuildGroupTree(RowsOf(form.groupIds, nodes)));
        Ok(if groups == [] then [NO_CONDITIONS] else groups)
    else if form.fields == [] then Ok([])
    else match FlatConditions(form, compiles, 0)
      case Err(e) => Err(e)
      case Ok(cs) => Ok([Group(if form.condOperator == "" then "OR" else form.condOperator, cs, [])])
  }
}
