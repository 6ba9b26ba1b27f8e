/** Rules written to the tables come back as they were, and leave each other alone. */
module RuleStoreProofs {
  import opened Wrappers
  import opened RuleTypes
  import opened GroupTree
  import opened RuleStore
  import opened Seqs

  // ----- what a save appends, told without the tables -----

  function Size(g: Group): nat
    decreases g, 1
  {
    1 + SizeAll(g.groups)
  }

  function SizeAll(gs: seq<Group>): nat
    decreases gs, 0
  {
    if gs == [] then 0 else Size(gs[0]) + SizeAll(gs[1..])
  }

  /** The rows of a forest in preorder, ids counting up from `base`. */
  function Block(gs: seq<Group>, parent: Option<int>, base: int): (rows: seq<Row<int>>)
    ensures |rows| == SizeAll(gs)
    decreases gs
  {
    if gs == [] then []
    else
      [Row(base, parent, gs[0].operator, gs[0].conditions)]
      + Block(gs[0].groups, Some(base), base + 1)
      + Block(gs[1..], parent, base + Size(gs[0]))
  }

  function GroupBlock(gs: seq<Group>, ruleId: int, parent: Option<int>, base: int): (rows: seq<GroupRow>)
    ensures |rows| == SizeAll(gs)
    decreases gs
  {
    if gs == [] then []
    else
      [GroupRow(base, ruleId, parent, gs[0].operator)]
      + GroupBlock(gs[0].groups, ruleId, Some(base), base + 1)
      + GroupBlock(gs[1..], ruleId, parent, base + Size(gs[0]))
  }

  /** What no save of groups touches. */
  ghost predicate SameElsewhere(t: Tables, u: Tables) {
    u.rules == t.rules && u.actions == t.actions && u.nextRule == t.nextRule && u.nextAction == t.nextAction
  }

  lemma {:induction false} InsertConditionsElsewhere(t: Tables, groupId: int, cs: seq<Condition>)
    ensures var u := InsertConditions(t, groupId, cs);
      SameElsewhere(t, u) && u.groups == t.groups && u.nextGroup == t.nextGroup
    decreases |cs|
  {
    if cs == [] {
    } else {
      InsertConditionsElsewhere(t.(conditions := t.conditions + [ConditionRow(t.nextCondition, groupId, cs[0])],
                                   nextCondition := t.nextCondition + 1), groupId, cs[1..]);
    }
  }

  /** A save appends one block of groups. */
  lemma {:induction false} SaveGroupsAppends(t: Tables, ruleId: int, gs: seq<Group>, parent: Option<int>)
    ensures var u := SaveGroups(t, ruleId, gs, parent);
      && u.groups == t.groups + GroupBlock(gs, ruleId, parent, t.nextGroup)
      && u.nextGroup == t.nextGroup + SizeAll(gs)
      && SameElsewhere(t, u)
    decreases gs, 0
  {
    if gs == [] {
      assert t.groups + [] == t.groups;
    } else {
      SaveGroupAppends(t, ruleId, gs[0], parent);
      hide SaveGroup;
      var t1 := SaveGroup(t, ruleId, gs[0], parent);
      SaveGroupsAppends(t1, ruleId, gs[1..], parent);
      Concat(t.groups, MemberBlock(gs[0], ruleId, parent, t.nextGroup),
             GroupBlock(gs[1..], ruleId, parent, t1.nextGroup));
    }
  }

  function MemberBlock(g: Group, ruleId: int, parent: Option<int>, base: int): seq<GroupRow> {
    [GroupRow(base, ruleId, parent, g.operator)] + GroupBlock(g.groups, ruleId, Some(base), base + 1)
  }

  lemma {:induction false} SaveGroupAppends(t: Tables, ruleId: int, g: Group, parent: Option<int>)
    ensures var u := SaveGroup(t, ruleId, g, parent);
      && u.groups == t.groups + MemberBlock(g, ruleId, parent, t.nextGroup)
      && u.nextGroup == t.nextGroup + Size(g)
      && SameElsewhere(t, u)
    decreases g, 1
  {
    var id := t.nextGroup;
    var row := [GroupRow(id, ruleId, parent, g.operator)];
    var t1 := t.(groups := t.groups + row, nextGroup := id + 1);
    InsertConditionsElsewhere(t1, id, g.conditions);
    SaveGroupsAppends(InsertConditions(t1, id, g.conditions), ruleId, g.groups, Some(id));
    Concat(t.groups, row, GroupBlock(g.groups, ruleId, Some(id), id + 1));
  }

  // ----- building the tree from a block -----

  predicate NoParentIn(rows: seq<Row<int>>, lo: int, hi: int) {
    forall r <- rows :: r.parent.Some? ==> !(lo <= r.parent.value < hi)
  }

  /** Rows of a block hang on the block's parent or on each other. */
  lemma {:induction false} BlockParents(gs: seq<Group>, parent: Option<int>, base: int)
    ensures forall r <- Block(gs, parent, base) ::
      r.parent == parent || (r.parent.Some? && base <= r.parent.value < base + SizeAll(gs))
    decreases gs
  {
    if gs == [] {
    } else {
      BlockParents(gs[0].groups, Some(base), base + 1);
      BlockParents(gs[1..], parent, base + Size(gs[0]));
    }
  }

  lemma NoParentNarrow(a: seq<Row<int>>, lo: int, hi: int, mid: int)
    requires NoParentIn(a, lo, hi) && lo <= mid <= hi
    ensures NoParentIn(a, lo, mid) && NoParentIn(a, mid, hi)
  {
  }

  lemma NoParentOne(r: Row<int>, lo: int, hi: int)
    requires r.parent.Some? ==> !(lo <= r.parent.value < hi)
    ensures NoParentIn([r], lo, hi)
  {
  }

  lemma BuildHere(all: seq<Row<int>>, parent: Option<int>, n: nat)
    requires OneRowPerId(all) && Rooted(all, parent) && n < |all| && all[n].parent == parent
    ensures Rooted(all, Some(all[n].id))
    ensures BuildFrom(all, parent, n) ==
            [Node(all[n].id, all[n].operator, all[n].conditions, BuildFrom(all, Some(all[n].id), 0))]
              + BuildFrom(all, parent, n + 1)
  {
    ChildDeeper(all, parent, all[n]);
  }

  lemma NoParentConcat(a: seq<Row<int>>, b: seq<Row<int>>, lo: int, hi: int)
    requires NoParentIn(a, lo, hi) && NoParentIn(b, lo, hi)
    ensures NoParentIn(a + b, lo, hi)
  {
  }

  /** A block hangs neither on ids elsewhere nor, if its own parent does not, on any in a range apart. */
  lemma BlockKeepsOut(gs: seq<Group>, parent: Option<int>, base: int, lo: int, hi: int)
    requires parent.Some? ==> !(lo <= parent.value < hi)
    requires hi <= base || base + SizeAll(gs) <= lo
    ensures NoParentIn(Block(gs, parent, base), lo, hi)
  {
    BlockParents(gs, parent, base);
  }

  /** Rows that do not hang on the parent are passed over. */
  lemma {:induction false} BuildSkips(all: seq<Row<int>>, parent: Option<int>, i: nat, j: nat)
    requires OneRowPerId(all) && Rooted(all, parent) && i <= j <= |all|
    requires forall k :: i <= k < j ==> all[k].parent != parent
    ensures BuildFrom(all, parent, i) == BuildFrom(all, parent, j)
    decreases j - i
  {
    if i >= j {
    } else {
      BuildSkips(all, parent, i + 1, j);
    }
  }

  function Head(g: Group, parent: Option<int>, base: int): Row<int> {
    Row(base, parent, g.operator, g.conditions)
  }

  /** The rows up to and including the first member of a block. */
  function Family(before: seq<Row<int>>, g: Group, parent: Option<int>, base: int): seq<Row<int>> {
    before + [Head(g, parent, base)] + Block(g.groups, Some(base), base + 1)
  }

  /** Reading on from row n gives the forest and then whatever reading on from row m gives. */
  ghost predicate Reads(all: seq<Row<int>>, parent: Option<int>, n: nat, gs: seq<Group>, m: nat)
    requires OneRowPerId(all) && Rooted(all, parent) && n <= |all| && m <= |all|
  {
    Strip(BuildFrom(all, parent, n)) == gs + Strip(BuildFrom(all, parent, m))
  }

  lemma ReadsNothing(all: seq<Row<int>>, parent: Option<int>, n: nat)
    requires OneRowPerId(all) && Rooted(all, parent) && n <= |all|
    ensures Reads(all, parent, n, [], n)
  {
    hide BuildFrom, Strip;
    assert [] + Strip(BuildFrom(all, parent, n)) == Strip(BuildFrom(all, parent, n));
  }

  lemma ReadsMember(all: seq<Row<int>>, parent: Option<int>, l: nat, gs: seq<Group>, base: int, n: nat, m: nat)
    requires OneRowPerId(all) && Rooted(all, parent) && l <= |all| && n <= |all| && m <= |all| && gs != []
    requires Rooted(all, Some(base)) && Strip(BuildFrom(all, Some(base), 0)) == gs[0].groups
    requires BuildFrom(all, parent, l) ==
             [Node(base, gs[0].operator, gs[0].conditions, BuildFrom(all, Some(base), 0))] + BuildFrom(all, parent, n)
    requires Reads(all, parent, n, gs[1..], m)
    ensures Reads(all, parent, l, gs, m)
  {
    hide BuildFrom, OneRowPerId, Rooted;
    var node := Node(base, gs[0].operator, gs[0].conditions, BuildFrom(all, Some(base), 0));
    var siblings := BuildFrom(all, parent, n);
    assert ([node] + siblings)[1..] == siblings;
    assert [gs[0]] + (gs[1..] + Strip(BuildFrom(all, parent, m))) == gs + Strip(BuildFrom(all, parent, m));
  }

  /** A block inside a table, hanging on `parent`, is read as the forest it was written from. */
  lemma {:induction false} BuildBlock(all: seq<Row<int>>, before: seq<Row<int>>, gs: seq<Group>, parent: Option<int>,
                                      base: int, after: seq<Row<int>>)
    requires all == before + Block(gs, parent, base) + after
    requires OneRowPerId(all) && Rooted(all, parent)
    requires parent.Some? ==> parent.value < base
    requires NoParentIn(before, base, base + SizeAll(gs)) && NoParentIn(after, base, base + SizeAll(gs))
    ensures Reads(all, parent, |before|, gs, |before| + SizeAll(gs))
    decreases gs, 1
  {
    hide BuildFrom, OneRowPerId, Rooted, NoParentIn, NoneUnder, Strip, Reads, Family, Block;
    if gs == [] {
      ReadsNothing(all, parent, |before|);
    } else {
      MemberRead(all, before, gs, parent, base, after);
      BuildBlock(all, Family(before, gs[0], parent, base), gs[1..], parent, base + Size(gs[0]), after);
      ReadsMember(all, parent, |before|, gs, base, |before| + Size(gs[0]), |before| + SizeAll(gs));
    }
  }

  /** The first member of a block is read with its subgroups, and the rest stands after it as a block. */
  lemma {:induction false} MemberRead(all: seq<Row<int>>, before: seq<Row<int>>, gs: seq<Group>, parent: Option<int>,
                                      base: int, after: seq<Row<int>>)
    requires gs != [] && all == before + Block(gs, parent, base) + after
    requires OneRowPerId(all) && Rooted(all, parent)
    requires parent.Some? ==> parent.value < base
    requires NoParentIn(before, base, base + SizeAll(gs)) && NoParentIn(after, base, base + SizeAll(gs))
    ensures var mid, end := base + Size(gs[0]), base + SizeAll(gs);
      var family, n := Family(before, gs[0], parent, base), |before| + Size(gs[0]);
      && all == family + Block(gs[1..], parent, mid) + after
      && NoParentIn(family, mid, end) && NoParentIn(after, mid, end)
      && |family| == n <= |all| && n + SizeAll(gs[1..]) == |before| + SizeAll(gs) <= |all|
      && Rooted(all, Some(base))
      && Strip(BuildFrom(all, Some(base), 0)) == gs[0].groups
      && BuildFrom(all, parent, |before|) ==
           [Node(base, gs[0].operator, gs[0].conditions, BuildFrom(all, Some(base), 0))] + BuildFrom(all, parent, n)
    decreases gs, 0
  {
    hide BuildFrom, OneRowPerId, Rooted, NoParentIn, NoneUnder, Strip, Family, Block;
    FirstOfBlock(all, before, gs, parent, base, after);
    MembersApart(before, gs, parent, base, after);
    BuildMember(all, before, gs[0], parent, base, Block(gs[1..], parent, base + Size(gs[0])) + after);
  }

  /** The first member is read at its row, and the walk goes on at the second member. */
  lemma FirstOfBlock(all: seq<Row<int>>, before: seq<Row<int>>, gs: seq<Group>, parent: Option<int>, base: int,
                     after: seq<Row<int>>)
    requires gs != [] && all == before + Block(gs, parent, base) + after
    requires OneRowPerId(all) && Rooted(all, parent)
    requires parent.Some? ==> parent.value < base
    ensures var outer := Block(gs[1..], parent, base + Size(gs[0]));
      var n := |before| + Size(gs[0]);
      && all == Family(before, gs[0], parent, base) + outer + after
      && all == Family(before, gs[0], parent, base) + (outer + after)
      && |Family(before, gs[0], parent, base)| == n <= |all|
      && n + SizeAll(gs[1..]) == |before| + SizeAll(gs) <= |all|
      && Rooted(all, Some(base))
      && BuildFrom(all, parent, |before|) ==
           [Node(base, gs[0].operator, gs[0].conditions, BuildFrom(all, Some(base), 0))] + BuildFrom(all, parent, n)
  {
    hide BuildFrom, OneRowPerId, Rooted, NoneUnder;
    var n := |before|;
    var head := Head(gs[0], parent, base);
    var inner, outer := Block(gs[0].groups, Some(base), base + 1), Block(gs[1..], parent, base + Size(gs[0]));
    SplitBlock(before, head, inner, outer, after);
    BuildHere(all, parent, n);
    BlockNotUnder(gs[0].groups, base + 1, parent);
    MiddleNotUnder(before + [head], inner, outer + after, parent);
    BuildSkips(all, parent, n + 1, n + 1 + |inner|);
  }

  /** Neither the first member of a block nor the rest of it hangs on the other. */
  lemma MembersApart(before: seq<Row<int>>, gs: seq<Group>, parent: Option<int>, base: int, after: seq<Row<int>>)
    requires gs != [] && (parent.Some? ==> parent.value < base)
    requires NoParentIn(before, base, base + SizeAll(gs)) && NoParentIn(after, base, base + SizeAll(gs))
    ensures var mid, end := base + Size(gs[0]), base + SizeAll(gs);
      && NoParentIn(before, base, mid)
      && NoParentIn(Block(gs[1..], parent, mid) + after, base, mid)
      && NoParentIn(Family(before, gs[0], parent, base), mid, end)
      && NoParentIn(after, mid, end)
  {
    hide NoParentIn, Block;
    var mid, end := base + Size(gs[0]), base + SizeAll(gs);
    var head := Head(gs[0], parent, base);
    NoParentNarrow(before, base, end, mid);
    NoParentNarrow(after, base, end, mid);
    NoParentOne(head, mid, end);
    BlockKeepsOut(gs[1..], parent, mid, base, mid);
    NoParentConcat(Block(gs[1..], parent, mid), after, base, mid);
    BlockKeepsOut(gs[0].groups, Some(base), base + 1, mid, end);
    NoParentConcat(before, [head], mid, end);
    NoParentConcat(before + [head], Block(gs[0].groups, Some(base), base + 1), mid, end);
  }

  lemma MiddleAt<T>(before: seq<T>, block: seq<T>, after: seq<T>, k: nat)
    requires |before| <= k < |before| + |block|
    ensures (before + block + after)[k] == block[k - |before|]
  {
  }

  predicate NoneUnder(rows: seq<Row<int>>, parent: Option<int>) {
    forall k :: 0 <= k < |rows| ==> rows[k].parent != parent
  }

  lemma BlockNotUnder(gs: seq<Group>, base: int, parent: Option<int>)
    requires parent.Some? ==> parent.value < base - 1
    ensures NoneUnder(Block(gs, Some(base - 1), base), parent)
  {
    BlockParents(gs, Some(base - 1), base);
    var rows := Block(gs, Some(base - 1), base);
    forall k | 0 <= k < |rows| ensures rows[k].parent != parent {
      assert rows[k] in rows;
    }
  }

  lemma MiddleNotUnder(before: seq<Row<int>>, block: seq<Row<int>>, after: seq<Row<int>>, parent: Option<int>)
    requires NoneUnder(block, parent)
    ensures forall k :: |before| <= k < |before| + |block| ==> (before + block + after)[k].parent != parent
  {
    forall k | |before| <= k < |before| + |block| ensures (before + block + after)[k].parent != parent {
      MiddleAt(before, block, after, k);
    }
  }

  lemma SplitBlock(before: seq<Row<int>>, head: Row<int>, inner: seq<Row<int>>, outer: seq<Row<int>>,
                   after: seq<Row<int>>)
    ensures before + ([head] + inner + outer) + after == (before + [head] + inner) + outer + after
    ensures before + ([head] + inner + outer) + after == (before + [head]) + inner + (outer + after)
    ensures (before + ([head] + inner + outer) + after)[|before|] == head
  {
  }

  /** The subgroups of one member of a block. */
  lemma {:induction false} BuildMember(all: seq<Row<int>>, before: seq<Row<int>>, g: Group, parent: Option<int>,
                                       base: int, after: seq<Row<int>>)
    requires all == Family(before, g, parent, base) + after
    requires OneRowPerId(all) && Rooted(all, Some(base))
    requires parent.Some? ==> parent.value < base
    requires NoParentIn(before, base, base + Size(g)) && NoParentIn(after, base, base + Size(g))
    ensures Strip(BuildFrom(all, Some(base), 0)) == g.groups
    decreases g, 1
  {
    var inner := Block(g.groups, Some(base), base + 1);
    var before1 := before + [Head(g, parent, base)];
    BuildBlock(all, before1, g.groups, Some(base), base + 1, after);
    OnlyTheBlock(all, before1, inner, after, base);
    assert g.groups + [] == g.groups;
  }

  /** Nothing outside the block hangs on its parent, so reading the table is reading the block. */
  lemma OnlyTheBlock(all: seq<Row<int>>, before: seq<Row<int>>, block: seq<Row<int>>, after: seq<Row<int>>, parent: int)
    requires all == before + block + after
    requires OneRowPerId(all) && Rooted(all, Some(parent))
    requires NoneUnder(before, Some(parent)) && NoneUnder(after, Some(parent))
    ensures BuildFrom(all, Some(parent), 0) == BuildFrom(all, Some(parent), |before|)
    ensures BuildFrom(all, Some(parent), |before| + |block|) == []
  {
    hide BuildFrom, OneRowPerId, Rooted, NoneUnder;
    EndsNotUnder(before, block, after, Some(parent));
    BuildSkips(all, Some(parent), 0, |before|);
    BuildSkips(all, Some(parent), |before| + |block|, |all|);
    BuildEnd(all, Some(parent));
  }

  lemma EndsNotUnder(before: seq<Row<int>>, block: seq<Row<int>>, after: seq<Row<int>>, parent: Option<int>)
    requires NoneUnder(before, parent) && NoneUnder(after, parent)
    ensures var all := before + block + after;
      && (forall k :: 0 <= k < |before| ==> all[k].parent != parent)
      && (forall k :: |before| + |block| <= k < |all| ==> all[k].parent != parent)
  {
    var all := before + block + after;
    forall k | |before| + |block| <= k < |all| ensures all[k].parent != parent {
      assert all[k] == after[k - |before| - |block|];
    }
  }

  lemma BuildEnd(all: seq<Row<int>>, parent: Option<int>)
    requires OneRowPerId(all) && Rooted(all, parent)
    ensures BuildFrom(all, parent, |all|) == []
  {
  }
}
