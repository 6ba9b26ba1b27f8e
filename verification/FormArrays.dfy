/** What the condition form's parser makes of any arrays at all, told entry by entry. */
module FormArrays {
  import opened Wrappers
  import opened RuleTypes
  import opened GroupTree
  import opened FormCodec

  // ----- the entries -----

  /** An entry is read when it has a field, an operator and a value. */
  function Entries(form: Form): nat {
    var n := if |form.ops| < |form.fields| then |form.ops| else |form.fields|;
    if |form.vals| < n then |form.vals| else n
  }

  /** The condition of entry i; a header is named in an array of its own. */
  predicate IsEntry(form: Form, i: nat, c: Condition) {
    && i < Entries(form) && c.operator == form.ops[i] && c.value == form.vals[i]
    && c.field == if form.fields[i] == "header" && i < |form.headerNames| && form.headerNames[i] != ""
                  then "header:" + form.headerNames[i] else form.fields[i]
  }

  predicate BadEntry(form: Form, compiles: string -> bool, i: nat) {
    i < Entries(form) && form.ops[i] == "matches_regex" && !compiles(form.vals[i])
  }

  ghost predicate NoneBad(form: Form, compiles: string -> bool, from: nat) {
    forall i: nat :: from <= i ==> !BadEntry(form, compiles, i)
  }

  /** The first bad entry from one on has this pattern. */
  ghost predicate FirstBadFrom(form: Form, compiles: string -> bool, from: nat, pattern: string) {
    exists i: nat :: from <= i && BadEntry(form, compiles, i) && form.vals[i] == pattern
                     && forall j: nat :: from <= j < i ==> !BadEntry(form, compiles, j)
  }

  lemma NextBad(form: Form, compiles: string -> bool, i: nat, pattern: string)
    requires !BadEntry(form, compiles, i)
    ensures FirstBadFrom(form, compiles, i, pattern) <==> FirstBadFrom(form, compiles, i + 1, pattern)
    ensures NoneBad(form, compiles, i) <==> NoneBad(form, compiles, i + 1)
  {
  }

  lemma ThisBad(form: Form, compiles: string -> bool, i: nat, pattern: string)
    requires BadEntry(form, compiles, i)
    ensures FirstBadFrom(form, compiles, i, pattern) <==> pattern == form.vals[i]
  {
  }

  lemma {:induction false} TreeErrs(form: Form, compiles: string -> bool, nodes: Nodes, i: nat, pattern: string)
    requires i <= |form.fields|
    ensures AddConditions(form, compiles, nodes, i) == Err(pattern) <==> FirstBadFrom(form, compiles, i, pattern)
    decreases |form.fields| - i
  {
    hide FirstBadFrom, AddCondition, ConditionAt;
    if i == |form.fields| {
      NoneLeft(form, compiles, pattern);
    } else {
      if i < Entries(form) && BadRegex(compiles, ConditionAt(form, i)) {
        EntryRead(form, i);
        ThisBad(form, compiles, i, pattern);
      } else {
        if i < Entries(form) { EntryRead(form, i); }
        NextBad(form, compiles, i, pattern);
        if i < Entries(form) {
          var gid := if i < |form.condGroups| then form.condGroups[i] else "";
          TreeErrs(form, compiles, AddCondition(nodes, gid, ConditionAt(form, i)), i + 1, pattern);
        } else {
          TreeErrs(form, compiles, nodes, i + 1, pattern);
        }
      }
    }
  }

  lemma NoneLeft(form: Form, compiles: string -> bool, pattern: string)
    ensures !FirstBadFrom(form, compiles, |form.fields|, pattern) && NoneBad(form, compiles, |form.fields|)
  {
  }

  lemma EntryRead(form: Form, i: nat)
    requires i < Entries(form)
    ensures IsEntry(form, i, ConditionAt(form, i))
  {
  }

  lemma {:induction false} FlatErrs(form: Form, compiles: string -> bool, i: nat, pattern: string)
    requires i <= |form.fields|
    ensures FlatConditions(form, compiles, i) == Err(pattern) <==> FirstBadFrom(form, compiles, i, pattern)
    decreases |form.fields| - i
  {
    hide FirstBadFrom, ConditionAt;
    if i == |form.fields| {
      NoneLeft(form, compiles, pattern);
    } else {
      if i < Entries(form) { EntryRead(form, i); }
      FlatErrs(form, compiles, i + 1, pattern);
      if BadEntry(form, compiles, i) {
        ThisBad(form, compiles, i, pattern);
      } else {
        NextBad(form, compiles, i, pattern);
      }
    }
  }

  /** Main result. In either format the form is refused exactly for its first pattern that does not compile, even when
      the condition it is in names no group. */
  lemma RefusedIff(form: Form, compiles: string -> bool, pattern: string)
    ensures ParseConditions(form, compiles) == Err(pattern) <==> FirstBadFrom(form, compiles, 0, pattern)
  {
    hide AddConditions, FlatConditions, NodesUpTo, FirstBadFrom;
    if form.groupIds != [] {
      assert form.groupIds[..|form.groupIds|] == form.groupIds;
      TreeErrs(form, compiles, NodesUpTo(form, |form.groupIds|), 0, pattern);
    } else if form.fields == [] {
      NoneLeft(form, compiles, pattern);
    } else {
      FlatErrs(form, compiles, 0, pattern);
    }
  }

  // ----- the older format -----

  lemma {:induction false} FlatSays(form: Form, compiles: string -> bool, i: nat)
    requires i <= |form.fields| && NoneBad(form, compiles, i)
    ensures var r := FlatConditions(form, compiles, i);
      && r.Ok? && |r.value| == (if i < Entries(form) then Entries(form) - i else 0)
      && forall k :: 0 <= k < |r.value| ==> IsEntry(form, i + k, r.value[k])
    decreases |form.fields| - i
  {
    hide ConditionAt, IsEntry;
    if i == |form.fields| {
    } else {
      if i < Entries(form) { EntryRead(form, i); EntryNotBad(form, compiles, i, ConditionAt(form, i)); }
      FlatSays(form, compiles, i + 1);
      if i < Entries(form) {
        var rest := FlatConditions(form, compiles, i + 1).value;
        forall k | 0 <= k < |rest| + 1 ensures IsEntry(form, i + k, ([ConditionAt(form, i)] + rest)[k]) {
          if k > 0 { assert IsEntry(form, i + 1 + (k - 1), rest[k - 1]); }
        }
      }
    }
  }

  lemma EntryNotBad(form: Form, compiles: string -> bool, i: nat, c: Condition)
    requires IsEntry(form, i, c)
    ensures BadRegex(compiles, c) <==> BadEntry(form, compiles, i)
  {
  }

  /** Main result. Without groups, the conditions are one group, in order, joined by the operator the form names, or by
      OR; without conditions either there is none. */
  lemma OlderFormat(form: Form, compiles: string -> bool)
    requires form.groupIds == [] && NoneBad(form, compiles, 0)
    ensures var r := ParseConditions(form, compiles);
      && r.Ok? && (form.fields == [] ==> r.value == [])
      && (form.fields != [] ==>
            && |r.value| == 1 && r.value[0].operator == (if form.condOperator == "" then "OR" else form.condOperator)
            && r.value[0].groups == [] && |r.value[0].conditions| == Entries(form)
            && forall k :: 0 <= k < Entries(form) ==> IsEntry(form, k, r.value[0].conditions[k]))
  {
    hide FlatConditions, IsEntry, NoneBad;
    FlatSays(form, compiles, 0);
    if form.fields != [] {
      var cs := ParseConditions(form, compiles).value[0].conditions;
      forall k | 0 <= k < Entries(form) ensures IsEntry(form, k, cs[k]) {
        assert IsEntry(form, 0 + k, cs[k]);
      }
    }
  }

  // ----- groups -----

  /** Entry i is a condition of this group. */
  predicate Belongs(form: Form, i: nat, id: string) {
    i < Entries(form) && id == if i < |form.condGroups| then form.condGroups[i] else ""
  }

  /** The entries before the n-th that belong to the group, in order. */
  ghost predicate Gathered(form: Form, id: string, n: nat, picks: seq<nat>, cs: seq<Condition>) {
    && |picks| == |cs|
    && (forall k :: 0 <= k < |picks| ==> picks[k] < n && Belongs(form, picks[k], id) && IsEntry(form, picks[k], cs[k]))
    && (forall j, k :: 0 <= j < k < |picks| ==> picks[j] < picks[k])
    && (forall i: nat :: i < n && Belongs(form, i, id) ==> i in picks)
  }

  ghost predicate Gathers(form: Form, id: string, n: nat, cs: seq<Condition>) {
    exists picks :: Gathered(form, id, n, picks, cs)
  }

  lemma GatherOn(form: Form, id: string, n: nat, cs: seq<Condition>, c: Condition)
    requires Gathers(form, id, n, cs) && Belongs(form, n, id) && IsEntry(form, n, c)
    ensures Gathers(form, id, n + 1, cs + [c])
  {
    hide IsEntry, Belongs;
    var picks :| Gathered(form, id, n, picks, cs);
    assert forall i :: i in picks + [n] <==> i in picks || i == n;
    assert Gathered(form, id, n + 1, picks + [n], cs + [c]);
  }

  lemma GatherPast(form: Form, id: string, n: nat, cs: seq<Condition>)
    requires Gathers(form, id, n, cs) && !Belongs(form, n, id)
    ensures Gathers(form, id, n + 1, cs)
  {
    hide IsEntry, Belongs;
    var picks :| Gathered(form, id, n, picks, cs);
    assert Gathered(form, id, n + 1, picks, cs);
  }

  /** Every node holds its entries so far. */
  ghost predicate AllGather(form: Form, n: nat, nodes: Nodes) {
    forall id <- nodes :: Gathers(form, id, n, nodes[id].conditions)
  }

  lemma AddGathers(form: Form, i: nat, nodes: Nodes, gid: string, c: Condition)
    requires AllGather(form, i, nodes) && Belongs(form, i, gid) && IsEntry(form, i, c)
    ensures AllGather(form, i + 1, AddCondition(nodes, gid, c))
  {
    hide IsEntry, Gathers;
    forall id | id in nodes ensures Gathers(form, id, i + 1, AddCondition(nodes, gid, c)[id].conditions) {
      if id == gid {
        GatherOn(form, id, i, nodes[id].conditions, c);
      } else {
        GatherPast(form, id, i, nodes[id].conditions);
      }
    }
  }

  lemma NoneGathers(form: Form, i: nat, nodes: Nodes)
    requires AllGather(form, i, nodes) && i >= Entries(form)
    ensures AllGather(form, i + 1, nodes)
  {
    hide Gathers;
    forall id | id in nodes ensures Gathers(form, id, i + 1, nodes[id].conditions) {
      GatherPast(form, id, i, nodes[id].conditions);
    }
  }

  /** The nodes but for their conditions. */
  ghost predicate SameNodes(nodes: Nodes, result: Nodes) {
    nodes.Keys == result.Keys && forall id <- nodes :: result[id] == nodes[id].(conditions := result[id].conditions)
  }

  lemma AddSame(nodes: Nodes, gid: string, c: Condition, result: Nodes)
    requires SameNodes(AddCondition(nodes, gid, c), result)
    ensures SameNodes(nodes, result)
  {
    assert AddCondition(nodes, gid, c).Keys == nodes.Keys;
  }

  lemma {:induction false} AllEntriesGathered(form: Form, compiles: string -> bool, nodes: Nodes, i: nat)
    requires i <= |form.fields| && NoneBad(form, compiles, i) && AllGather(form, i, nodes)
    ensures var r := AddConditions(form, compiles, nodes, i);
      r.Ok? && SameNodes(nodes, r.value) && AllGather(form, |form.fields|, r.value)
    decreases |form.fields| - i
  {
    hide AllGather, AddCondition, ConditionAt, IsEntry, BadRegex, SameNodes;
    if i == |form.fields| {
      assert SameNodes(nodes, nodes) by { Unchanged(nodes); }
    } else {
      if i < Entries(form) {
        var c := ConditionAt(form, i);
        EntryRead(form, i);
        EntryNotBad(form, compiles, i, c);
        var gid := if i < |form.condGroups| then form.condGroups[i] else "";
        AddGathers(form, i, nodes, gid, c);
        AllEntriesGathered(form, compiles, AddCondition(nodes, gid, c), i + 1);
        AddSame(nodes, gid, c, AddConditions(form, compiles, AddCondition(nodes, gid, c), i + 1).value);
      } else {
        NoneGathers(form, i, nodes);
        AllEntriesGathered(form, compiles, nodes, i + 1);
      }
    }
  }

  lemma Unchanged(nodes: Nodes)
    ensures SameNodes(nodes, nodes)
  {
  }

  /** The k-th group is the last submitted under this id. */
  ghost predicate LastNamed(form: Form, n: nat, id: string, k: nat) {
    k < n <= |form.groupIds| && form.groupIds[k] == id && forall j :: k < j < n ==> form.groupIds[j] != id
  }

  /** Parent and operator of the k-th group: none and OR where none is submitted. */
  predicate IsNode(form: Form, k: nat, parent: string, operator: string) {
    && parent == (if k < |form.groupParents| then form.groupParents[k] else "")
    && operator == if k < |form.groupOps| && form.groupOps[k] != "" then form.groupOps[k] else "OR"
  }

  lemma {:induction false} LastNodeCounts(form: Form, n: nat, id: string) returns (k: nat)
    requires n <= |form.groupIds| && id in NodesUpTo(form, n)
    ensures LastNamed(form, n, id, k)
    ensures var node := NodesUpTo(form, n)[id]; IsNode(form, k, node.parent, node.operator) && node.conditions == []
    decreases n
  {
    if form.groupIds[n - 1] == id {
      k := n - 1;
    } else {
      assert form.groupIds[..n] == form.groupIds[..n - 1] + [form.groupIds[n - 1]];
      k := LastNodeCounts(form, n - 1, id);
    }
  }

  /** The row of one submitted id: as the last group under that id says, with all conditions that name it. */
  ghost predicate RowSays(form: Form, row: Row<string>) {
    && (exists k: nat :: LastNamed(form, |form.groupIds|, row.id, k)
                      && IsNode(form, k, if row.parent.Some? then row.parent.value else "", row.operator))
    && row.parent != Some("")
    && Gathers(form, row.id, |form.fields|, row.conditions)
  }

  ghost predicate RowsSay(form: Form, rows: seq<Row<string>>) {
    && |rows| == |form.groupIds|
    && forall k :: 0 <= k < |rows| ==> rows[k].id == form.groupIds[k] && RowSays(form, rows[k])
  }

  lemma NodesStart(form: Form)
    ensures AllGather(form, 0, NodesUpTo(form, |form.groupIds|))
  {
    hide NodesUpTo;
    var nodes := NodesUpTo(form, |form.groupIds|);
    forall id | id in nodes ensures Gathers(form, id, 0, nodes[id].conditions) {
      var k := LastNodeCounts(form, |form.groupIds|, id);
      assert Gathered(form, id, 0, [], []);
    }
  }

  lemma RowsAreSaid(form: Form, result: Nodes)
    requires SameNodes(NodesUpTo(form, |form.groupIds|), result) && AllGather(form, |form.fields|, result)
    requires forall id <- form.groupIds :: id in result
    ensures RowsSay(form, RowsOf(form.groupIds, result))
  {
    hide NodesUpTo, Gathers, OneRowPerId;
    var rows := RowsOf(form.groupIds, result);
    forall k | 0 <= k < |rows| ensures rows[k].id == form.groupIds[k] && RowSays(form, rows[k]) {
      var id := form.groupIds[k];
      assert id in form.groupIds;
      var last := LastNodeCounts(form, |form.groupIds|, id);
    }
  }

  lemma {:induction false} NoRoots(rows: seq<Row<string>>, i: nat)
    requires OneRowPerId(rows) && Rooted(rows, None) && i <= |rows|
    ensures Strip(BuildFrom(rows, None, i)) == [] <==> forall k :: i <= k < |rows| ==> rows[k].parent.Some?
    decreases |rows| - i
  {
    hide OneRowPerId, Rooted;
    if i == |rows| {
    } else {
      NoRoots(rows, i + 1);
    }
  }

  /** Main result. With groups, whatever the arrays are, the forest is the tree of the submitted groups: of each id the
      last, under the parent it names, with every condition that names it, in order. A condition that names no group is
      dropped. When no group is without a parent, there is one empty OR group. */
  lemma GroupsFormat(form: Form, compiles: string -> bool) returns (rows: seq<Row<string>>)
    requires form.groupIds != [] && NoneBad(form, compiles, 0)
    ensures RowsSay(form, rows) && OneRowPerId(rows)
    ensures ParseConditions(form, compiles)
         == Ok(if forall r <- rows :: r.parent.Some? then [Group("OR", [], [])] else Strip(BuildGroupTree(rows)))
  {
    hide AddConditions, NodesUpTo, RowsSay, OneRowPerId, AllGather, SameNodes, NoneBad, BuildFrom, Strip, Rooted;
    assert form.groupIds[..|form.groupIds|] == form.groupIds;
    var nodes := NodesUpTo(form, |form.groupIds|);
    NodesStart(form);
    AllEntriesGathered(form, compiles, nodes, 0);
    var result := AddConditions(form, compiles, nodes, 0).value;
    rows := RowsOf(form.groupIds, result);
    RowsAreSaid(form, result);
    RootRooted(rows);
    NoRoots(rows, 0);
  }
}
