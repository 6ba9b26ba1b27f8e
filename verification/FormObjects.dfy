/** The loops of `parseConditions`, which fill a map of nodes and then walk it; no array it is given makes it run on. */
module FormObjects {
  import opened Wrappers
  import opened RuleTypes
  import opened GroupTree
  import opened FormCodec
  import opened Seqs
  import FormProofs

  /** The ids of the rows under one id, among the first i rows. */
  function ChildIds(rows: seq<Row<string>>, id: string, i: nat): (ids: seq<string>)
    requires i <= |rows|
    ensures forall c <- ids :: exists r <- rows :: r.id == c && r.parent == Some(id)
  {
    if i == 0 then []
    else ChildIds(rows, id, i - 1) + (if rows[i - 1].parent == Some(id) then [rows[i - 1].id] else [])
  }

  /** The group a row stands for. */
  ghost function GroupAt(rows: seq<Row<string>>, id: string): Group
    requires OneRowPerId(rows) && Has(rows, id) && Rooted(rows, Some(id))
  {
    var r := Find(rows, id);
    Group(r.operator, r.conditions, Strip(BuildFrom(rows, Some(id), 0)))
  }

  ghost predicate Reachable(rows: seq<Row<string>>, ids: seq<string>) {
    forall c <- ids :: Has(rows, c) && Rooted(rows, Some(c))
  }

  ghost function GroupsAt(rows: seq<Row<string>>, ids: seq<string>): (gs: seq<Group>)
    requires OneRowPerId(rows) && Reachable(rows, ids)
    ensures |gs| == |ids|
  {
    seq(|ids|, i requires 0 <= i < |ids| => GroupAt(rows, ids[i]))
  }

  lemma ChildReachable(rows: seq<Row<string>>, id: string, i: nat, c: string)
    requires OneRowPerId(rows) && Rooted(rows, Some(id)) && i <= |rows| && c in ChildIds(rows, id, i)
    ensures Has(rows, c) && Rooted(rows, Some(c)) && Depth(rows, Some(id)) < Depth(rows, Some(c)) <= |rows|
  {
    var r :| r in rows && r.id == c && r.parent == Some(id);
    ChildDeeper(rows, Some(id), r);
  }

  lemma ChildrenReachable(rows: seq<Row<string>>, id: string, i: nat)
    requires OneRowPerId(rows) && Rooted(rows, Some(id)) && i <= |rows|
    ensures Reachable(rows, ChildIds(rows, id, i))
  {
    forall c | c in ChildIds(rows, id, i) ensures Has(rows, c) && Rooted(rows, Some(c)) {
      ChildReachable(rows, id, i, c);
    }
  }

  /** Walking the list of children gives the same groups as looking for them in the rows. */
  lemma {:induction false} ChildrenBuild(rows: seq<Row<string>>, id: string, i: nat)
    requires OneRowPerId(rows) && Rooted(rows, Some(id)) && i <= |rows|
    ensures Reachable(rows, ChildIds(rows, id, i))
    ensures Strip(BuildFrom(rows, Some(id), 0))
        == GroupsAt(rows, ChildIds(rows, id, i)) + Strip(BuildFrom(rows, Some(id), i))
    decreases i
  {
    hide OneRowPerId, Rooted, BuildFrom, Strip, Reachable;
    ChildrenReachable(rows, id, i);
    if i == 0 {
    } else {
      ChildrenBuild(rows, id, i - 1);
      FormProofs.BuildStep(rows, Some(id), i - 1);
      FindUnique(rows, rows[i - 1]);
      MoreChildren(rows, id, i);
    }
  }

  lemma MoreChildren(rows: seq<Row<string>>, id: string, i: nat)
    requires OneRowPerId(rows) && Rooted(rows, Some(id)) && 0 < i <= |rows|
    requires Reachable(rows, ChildIds(rows, id, i)) && Reachable(rows, ChildIds(rows, id, i - 1))
    ensures rows[i - 1].parent == Some(id) ==> Has(rows, rows[i - 1].id) && Rooted(rows, Some(rows[i - 1].id))
    ensures rows[i - 1].parent == Some(id) ==>
      GroupsAt(rows, ChildIds(rows, id, i))
        == GroupsAt(rows, ChildIds(rows, id, i - 1)) + [GroupAt(rows, rows[i - 1].id)]
    ensures rows[i - 1].parent != Some(id)
        ==> GroupsAt(rows, ChildIds(rows, id, i)) == GroupsAt(rows, ChildIds(rows, id, i - 1))
  {
    hide GroupAt, Rooted;
    var before := ChildIds(rows, id, i - 1);
    if rows[i - 1].parent == Some(id) {
      assert ChildIds(rows, id, i) == before + [rows[i - 1].id];
      assert rows[i - 1].id in ChildIds(rows, id, i);
    } else {
      assert ChildIds(rows, id, i) == before;
    }
  }

  /** Each node agrees with its row and lists the rows under it. */
  ghost predicate Wired(rows: seq<Row<string>>, nodes: Nodes) {
    forall r <- rows ::
      && r.id in nodes && nodes[r.id].operator == r.operator && nodes[r.id].conditions == r.conditions
      && nodes[r.id].children == ChildIds(rows, r.id, |rows|)
  }

  /** The closure `build`. The rows are there for the proof alone. */
  method Build(nodes: Nodes, id: string, ghost rows: seq<Row<string>>) returns (g: Group)
    requires OneRowPerId(rows) && Wired(rows, nodes) && Has(rows, id) && Rooted(rows, Some(id))
    ensures g == GroupAt(rows, id)
    decreases |rows| - Depth(rows, Some(id))
  {
    hide Strip, BuildFrom, Rooted, OneRowPerId;
    ghost var r := Find(rows, id);
    var n := nodes[id];
    ChildrenBuild(rows, id, |rows|);
    FormProofs.NothingLeft(rows, Some(id));
    var groups: seq<Group> := [];
    for k := 0 to |n.children|
      invariant |groups| == k && forall j :: 0 <= j < k ==> groups[j] == GroupsAt(rows, n.children)[j]
    {
      ChildReachable(rows, id, |rows|, n.children[k]);
      var sub := Build(nodes, n.children[k], rows);
      groups := groups + [sub];
    }
    assert groups == GroupsAt(rows, n.children);
    g := Group(n.operator, n.conditions, groups);
  }

  /** The nodes with the children found among the first i rows. */
  ghost predicate WiredUpTo(rows: seq<Row<string>>, parsed: Nodes, nodes: Nodes, i: nat)
    requires i <= |rows|
  {
    nodes.Keys == parsed.Keys && forall id <- parsed :: nodes[id] == parsed[id].(children := ChildIds(rows, id, i))
  }

  lemma WireStep(rows: seq<Row<string>>, parsed: Nodes, nodes: Nodes, i: nat)
    requires i < |rows| && WiredUpTo(rows, parsed, nodes, i)
    ensures WiredUpTo(rows, parsed,
                      if rows[i].parent.Some? && rows[i].parent.value in nodes then
                        nodes[rows[i].parent.value := nodes[rows[i].parent.value].(
                          children := nodes[rows[i].parent.value].children + [rows[i].id])]
                      else nodes, i + 1)
  {
  }

  lemma WireStart(rows: seq<Row<string>>, parsed: Nodes)
    requires Bare(parsed)
    ensures WiredUpTo(rows, parsed, parsed, 0)
  {
  }

  /** Put each id into its parent's list of children. */
  method Wire(order: seq<string>, parsed: Nodes) returns (nodes: Nodes)
    requires (forall id <- order :: id in parsed) && Bare(parsed)
    ensures WiredUpTo(RowsOf(order, parsed), parsed, nodes, |order|)
  {
    ghost var rows := RowsOf(order, parsed);
    WireStart(rows, parsed);
    nodes := parsed;
    for i := 0 to |order|
      invariant WiredUpTo(rows, parsed, nodes, i)
    {
      var id := order[i];
      var p := nodes[id].parent;
      WireStep(rows, parsed, nodes, i);
      if p != "" && p in nodes {
        nodes := nodes[p := nodes[p].(children := nodes[p].children + [id])];
      }
    }
  }

  method ReadNodes(form: Form, compiles: string -> bool) returns (r: Result<Nodes, string>)
    ensures r == AddConditions(form, compiles, NodesUpTo(form, |form.groupIds|), 0)
  {
    var nodes: Nodes := map[];
    for i := 0 to |form.groupIds|
      invariant nodes == NodesUpTo(form, i)
    {
      var parent := "";
      if i < |form.groupParents| { parent := form.groupParents[i]; }
      var op := "OR";
      if i < |form.groupOps| && form.groupOps[i] != "" { op := form.groupOps[i]; }
      nodes := nodes[form.groupIds[i] := GNode(parent, op, [], [])];
    }
    for i := 0 to |form.fields|
      invariant AddConditions(form, compiles, nodes, i)
          == AddConditions(form, compiles, NodesUpTo(form, |form.groupIds|), 0)
    {
      if i >= |form.ops| || i >= |form.vals| { continue; }
      var field := form.fields[i];
      if field == "header" && i < |form.headerNames| && form.headerNames[i] != "" {
        field := "header:" + form.headerNames[i];
      }
      if form.ops[i] == "matches_regex" && !compiles(form.vals[i]) { return Err(form.vals[i]); }
      var gid := "";
      if i < |form.condGroups| { gid := form.condGroups[i]; }
      if gid in nodes {
        nodes := nodes[gid := nodes[gid].(conditions := nodes[gid].conditions
                                          + [Condition(field, form.ops[i], form.vals[i])])];
      }
    }
    r := Ok(nodes);
  }

  /** No node has children yet. */
  ghost predicate Bare(nodes: Nodes) {
    forall id <- nodes :: nodes[id].children == []
  }

  lemma {:induction false} NodesBare(form: Form, n: nat)
    requires n <= |form.groupIds|
    ensures Bare(NodesUpTo(form, n))
  {
    if n == 0 {
    } else {
      NodesBare(form, n - 1);
    }
  }

  lemma AddKeepsBare(nodes: Nodes, gid: string, c: Condition)
    requires Bare(nodes)
    ensures Bare(AddCondition(nodes, gid, c))
  {
  }

  lemma {:induction false} ConditionsKeepBare(form: Form, compiles: string -> bool, nodes: Nodes, i: nat)
    requires i <= |form.fields| && Bare(nodes)
    ensures var r := AddConditions(form, compiles, nodes, i); r.Err? || Bare(r.value)
    decreases |form.fields| - i
  {
    hide ConditionAt, BadRegex, Bare, AddCondition;
    if i >= |form.fields| {
    } else {
      if i >= |form.ops| || i >= |form.vals| {
        ConditionsKeepBare(form, compiles, nodes, i + 1);
      } else {
        var gid := if i < |form.condGroups| then form.condGroups[i] else "";
        AddKeepsBare(nodes, gid, ConditionAt(form, i));
        ConditionsKeepBare(form, compiles, AddCondition(nodes, gid, ConditionAt(form, i)), i + 1);
      }
    }
  }

  /** The rows list the nodes in this order. */
  ghost predicate Enlisted(order: seq<string>, rows: seq<Row<string>>, nodes: Nodes) {
    && |rows| == |order|
    && forall i :: 0 <= i < |order| ==>
         rows[i].id == order[i] && order[i] in nodes && (rows[i].parent.None? <==> nodes[order[i]].parent == "")
  }

  lemma WiredRows(order: seq<string>, parsed: Nodes, nodes: Nodes)
    requires forall id <- order :: id in parsed
    requires WiredUpTo(RowsOf(order, parsed), parsed, nodes, |order|)
    ensures Wired(RowsOf(order, parsed), nodes) && Enlisted(order, RowsOf(order, parsed), nodes)
  {
    hide ChildIds, OneRowPerId;
    var rows := RowsOf(order, parsed);
    forall k | 0 <= k < |order|
      ensures order[k] in nodes && nodes[order[k]] == parsed[order[k]].(children := ChildIds(rows, order[k], |rows|))
    {
      assert order[k] in order;
    }
    hide WiredUpTo;
    forall r | r in rows
      ensures r.id in nodes && nodes[r.id].operator == r.operator && nodes[r.id].conditions == r.conditions
                              && nodes[r.id].children == ChildIds(rows, r.id, |rows|)
    {
      var k :| 0 <= k < |rows| && rows[k] == r;
    }
  }

  lemma RootStep(rows: seq<Row<string>>, i: nat)
    requires OneRowPerId(rows) && Rooted(rows, None) && i < |rows|
    ensures rows[i].parent.Some? ==> BuildFrom(rows, None, i) == BuildFrom(rows, None, i + 1)
    ensures rows[i].parent.None? ==> Has(rows, rows[i].id) && Rooted(rows, Some(rows[i].id))
    ensures rows[i].parent.None? ==>
      Strip(BuildFrom(rows, None, i)) == [GroupAt(rows, rows[i].id)] + Strip(BuildFrom(rows, None, i + 1))
  {
    hide BuildFrom, Strip, Rooted;
    FormProofs.BuildStep(rows, None, i);
    FindUnique(rows, rows[i]);
  }

  lemma RootList(rows: seq<Row<string>>)
    requires OneRowPerId(rows)
    ensures Rooted(rows, None) && Strip(BuildGroupTree(rows)) == Strip(BuildFrom(rows, None, 0))
    ensures Strip(BuildFrom(rows, None, |rows|)) == []
  {
    RootRooted(rows);
    FormProofs.NothingLeft(rows, None);
  }

  /** Build every node without a parent, in order. */
  method BuildRoots(order: seq<string>, nodes: Nodes, ghost rows: seq<Row<string>>) returns (groups: seq<Group>)
    requires OneRowPerId(rows) && Wired(rows, nodes) && Enlisted(order, rows, nodes)
    ensures groups == Strip(BuildGroupTree(rows))
  {
    hide Strip, BuildFrom, BuildGroupTree, Rooted, OneRowPerId, Wired, GroupAt, Has;
    RootList(rows);
    groups := [];
    for i := 0 to |order|
      invariant groups + Strip(BuildFrom(rows, None, i)) == Strip(BuildFrom(rows, None, 0))
    {
      RootStep(rows, i);
      if nodes[order[i]].parent == "" {
        var g := Build(nodes, order[i], rows);
        Concat(groups, [g], Strip(BuildFrom(rows, None, i + 1)));
        groups := groups + [g];
      }
    }
  }

  function Prepend(cs: seq<Condition>, r: Result<seq<Condition>, string>): Result<seq<Condition>, string> {
    match r
    case Err(e) => Err(e)
    case Ok(rest) => Ok(cs + rest)
  }

  lemma PrependNothing(r: Result<seq<Condition>, string>)
    ensures Prepend([], r) == r
  {
    if r.Ok? { assert [] + r.value == r.value; }
  }

  lemma PrependOne(cs: seq<Condition>, c: Condition, r: Result<seq<Condition>, string>)
    ensures Prepend(cs + [c], r) == Prepend(cs, Prepend([c], r))
  {
    if r.Ok? { assert cs + [c] + r.value == cs + ([c] + r.value); }
  }

  method ReadFlat(form: Form, compiles: string -> bool) returns (r: Result<seq<Condition>, string>)
    ensures r == FlatConditions(form, compiles, 0)
  {
    var cs: seq<Condition> := [];
    PrependNothing(FlatConditions(form, compiles, 0));
    for i := 0 to |form.fields|
      invariant Prepend(cs, FlatConditions(form, compiles, i)) == FlatConditions(form, compiles, 0)
    {
      if i >= |form.ops| || i >= |form.vals| { continue; }
      var field := form.fields[i];
      if field == "header" && i < |form.headerNames| && form.headerNames[i] != "" {
        field := "header:" + form.headerNames[i];
      }
      if form.ops[i] == "matches_regex" && !compiles(form.vals[i]) { return Err(form.vals[i]); }
      var c := Condition(field, form.ops[i], form.vals[i]);
      assert c == ConditionAt(form, i);
      PrependOne(cs, c, FlatConditions(form, compiles, i + 1));
      cs := cs + [c];
    }
    assert cs + [] == cs;
    r := Ok(cs);
  }

  method Parse(form: Form, compiles: string -> bool) returns (r: Result<seq<Group>, string>)
    ensures r == ParseConditions(form, compiles)
  {
    if |form.groupIds| > 0 {
      var parsed := ReadNodes(form, compiles);
      if parsed.Err? { return Err(parsed.error); }
      assert form.groupIds[..|form.groupIds|] == form.groupIds;
      NodesBare(form, |form.groupIds|);
      ConditionsKeepBare(form, compiles, NodesUpTo(form, |form.groupIds|), 0);
      hide AddConditions, NodesUpTo, BuildGroupTree, Strip, RowsOf;
      var nodes := Wire(form.groupIds, parsed.value);
      WiredRows(form.groupIds, parsed.value, nodes);
      var groups := BuildRoots(form.groupIds, nodes, RowsOf(form.groupIds, parsed.value));
      r := Ok(if groups == [] then [NO_CONDITIONS] else groups);
      return;
    }
    if |form.fields| == 0 { return Ok([]); }
    var operator := form.condOperator;
    if operator == "" { operator := "OR"; }
    var cs := ReadFlat(form, compiles);
    if cs.Err? { return Err(cs.error); }
    r := Ok([Group(operator, cs.value, [])]);
  }
}
