/** What the condition form gives back for every forest. */
module FormProofs {
  import opened Wrappers
  import opened Text
  import opened RuleTypes
  import opened GroupTree
  import opened RuleStoreProofs
  import opened Seqs
  import opened RuleRoundTrip
  import opened FormCodec

  // ----- what the form can show -----

  /** The form shows the condition as it is. */
  predicate Shown(c: Condition) {
    && c.operator in OPERATORS
    && (if IsHeader(c.field) then c.field != "header:" else c.field in FIELDS)
  }

  predicate AllShown(gs: seq<Group>)
    decreases gs
  {
    gs == [] || ((forall c <- gs[0].conditions :: Shown(c)) && AllShown(gs[0].groups) && AllShown(gs[1..]))
  }

  /** The nearest condition the form can show. */
  function Nearest(c: Condition): Condition {
    Condition(if IsHeader(c.field) then (if c.field == "header:" then "header" else c.field)
              else if c.field in FIELDS then c.field else "from",
              if c.operator in OPERATORS then c.operator else "contains", c.value)
  }

  function NearestAll(cs: seq<Condition>): (r: seq<Condition>)
    ensures |r| == |cs| && forall i :: 0 <= i < |cs| ==> r[i] == Nearest(cs[i])
  {
    if cs == [] then [] else [Nearest(cs[0])] + NearestAll(cs[1..])
  }

  /** The nearest forest the form can show. */
  function Normal(gs: seq<Group>): seq<Group>
    decreases gs
  {
    if gs == [] then []
    else [Group(if gs[0].operator == "AND" then "AND" else "OR", NearestAll(gs[0].conditions), Normal(gs[0].groups))]
         + Normal(gs[1..])
  }

  lemma NearestIff(c: Condition)
    ensures Nearest(c) == c <==> Shown(c)
  {
    if IsHeader(c.field) && c.field != "header:" { assert c.field in FIELDS || c.field != "from"; }
  }

  /** What the form can show: a header with a name, or one of its eight fields, with one of its thirteen operators. */
  lemma ShownMeaning(c: Condition)
    ensures Shown(c) <==>
      && c.operator in {"contains", "not_contains", "equals", "not_equals", "starts_with", "ends_with", "matches_regex",
                        "exists", "not_exists", "older_than", "newer_than", "before", "after"}
      && (c.field in {"from", "to", "cc", "subject", "body", "has_attachment", "content_type", "header"}
          || exists name :: name != "" && c.field == "header:" + name)
  {
    if IsHeader(c.field) {
      assert c.field == "header:" + c.field[|"header:"|..];
      assert "header:"[1] != "has_attachment"[1];
      assert c.field !in FIELDS;
    }
  }

  lemma {:induction false} NearestAllIff(cs: seq<Condition>)
    ensures NearestAll(cs) == cs <==> forall c <- cs :: Shown(c)
  {
    if cs == [] {
    } else {
      hide Nearest, Shown;
      NearestIff(cs[0]);
      NearestAllIff(cs[1..]);
      SameParts(Nearest(cs[0]), NearestAll(cs[1..]), cs);
    }
  }

  lemma SameParts<T>(head: T, tail: seq<T>, s: seq<T>)
    requires s != []
    ensures [head] + tail == s <==> head == s[0] && tail == s[1..]
  {
    assert ([head] + tail)[1..] == tail && ([head] + tail)[0] == head;
    assert [s[0]] + s[1..] == s;
  }

  lemma {:induction false} NormalIff(gs: seq<Group>)
    ensures Normal(gs) == gs <==> AllAndOr(gs) && AllShown(gs)
    decreases gs
  {
    if gs == [] {
    } else {
      hide Shown, NearestAll;
      NormalIff(gs[0].groups);
      NormalIff(gs[1..]);
      NearestAllIff(gs[0].conditions);
      var g := gs[0];
      SameParts(Group(if g.operator == "AND" then "AND" else "OR", NearestAll(g.conditions), Normal(g.groups)),
                Normal(gs[1..]), gs);
    }
  }

  /** The conditions of a forest in document order. */
  function Flatten(gs: seq<Group>): seq<Condition>
    decreases gs
  {
    if gs == [] then [] else gs[0].conditions + Flatten(gs[0].groups) + Flatten(gs[1..])
  }

  function FirstBad(compiles: string -> bool, cs: seq<Condition>): Option<string> {
    if cs == [] then None else if BadRegex(compiles, cs[0]) then Some(cs[0].value) else FirstBad(compiles, cs[1..])
  }

  // ----- path ids -----

  /** A path lies at or below another. */
  predicate AtOrBelow(q: string, p: string) {
    q == p || p + "." <= q
  }

  lemma {:induction false} DigitsEnd(digits: string, rest: string)
    requires forall c <- digits :: IsDigit(c)
    requires rest == "" || !IsDigit(rest[0])
    ensures LeadingDigits(digits + rest) == digits
  {
    if digits == "" {
      assert digits + rest == rest;
    } else {
      assert digits[0] in digits;
      assert (digits + rest)[1..] == digits[1..] + rest;
      DigitsEnd(digits[1..], rest);
    }
  }

  lemma DigitsOfBelow(q: string, stem: string, i: nat)
    requires AtOrBelow(q, stem + Decimal(i))
    ensures |stem| <= |q| && LeadingDigits(q[|stem|..]) == Decimal(i)
  {
    var d := Decimal(i);
    var p := stem + d;
    var rest := q[|p|..];
    if q != p { assert (p + ".")[|p|] == q[|p|] == '.'; }
    assert q[|stem|..] == d + rest;
    DigitsEnd(d, rest);
  }

  /** Below "g1" and below "g10" are different places. */
  lemma SiblingsApart(q: string, parent: string, i: nat, j: nat)
    requires AtOrBelow(q, PathOf(parent, i)) && AtOrBelow(q, PathOf(parent, j))
    ensures i == j
  {
    hide AtOrBelow, Decimal, LeadingDigits;
    DigitsOfBelow(q, Stem(parent), i);
    DigitsOfBelow(q, Stem(parent), j);
    DecimalInjective(i, j);
  }

  /** The paths of a forest in document order. */
  function Paths(gs: seq<Group>, parent: string, i: nat): (paths: seq<string>)
    ensures |paths| == SizeAll(gs)
    decreases gs
  {
    if gs == [] then []
    else [PathOf(parent, i)] + Paths(gs[0].groups, PathOf(parent, i), 0) + Paths(gs[1..], parent, i + 1)
  }

  ghost predicate Distinct(paths: seq<string>) {
    forall i, j :: 0 <= i < j < |paths| ==> paths[i] != paths[j]
  }

  lemma DistinctConcat(a: seq<string>, b: seq<string>)
    requires Distinct(a) && Distinct(b) && forall q <- b :: q !in a
    ensures Distinct(a + b)
  {
    forall i, j | 0 <= i < j < |a + b| ensures (a + b)[i] != (a + b)[j] {
      if i < |a| <= j { assert b[j - |a|] in b && a[i] in a; }
    }
  }

  /** Each path lies at or below one child. */
  ghost predicate SomeChild(q: string, parent: string, lo: nat) {
    exists j: nat :: lo <= j && AtOrBelow(q, PathOf(parent, j))
  }

  lemma {:induction false} PathsBelow(gs: seq<Group>, parent: string, i: nat)
    ensures forall q <- Paths(gs, parent, i) :: SomeChild(q, parent, i)
    decreases gs
  {
    if gs == [] {
    } else {
      var p := PathOf(parent, i);
      PathsBelow(gs[0].groups, p, 0);
      PathsBelow(gs[1..], parent, i + 1);
      forall q | q in Paths(gs, parent, i) ensures SomeChild(q, parent, i) {
        if q == p {
          assert AtOrBelow(q, PathOf(parent, i));
        } else if q in Paths(gs[0].groups, p, 0) {
          ChildIsBelow(q, p);
          assert AtOrBelow(q, PathOf(parent, i));
        } else {
          assert q in Paths(gs[1..], parent, i + 1);
          var j: nat :| i + 1 <= j && AtOrBelow(q, PathOf(parent, j));
        }
      }
    }
  }

  /** What lies below a child of p lies strictly below p. */
  lemma ChildIsBelow(q: string, p: string)
    requires p != "" && SomeChild(q, p, 0)
    ensures p + "." <= q
  {
    var j: nat :| AtOrBelow(q, PathOf(p, j));
    var c := PathOf(p, j);
    assert p + "." <= c && c <= q;
    assert q[..|c|] == c;
  }

  /** Path ids are pairwise different, at every depth. */
  lemma {:induction false} PathsDistinct(gs: seq<Group>, parent: string, i: nat)
    ensures Distinct(Paths(gs, parent, i))
    decreases gs
  {
    if gs == [] {
    } else {
      var p := PathOf(parent, i);
      var inner, outer := Paths(gs[0].groups, p, 0), Paths(gs[1..], parent, i + 1);
      PathsDistinct(gs[0].groups, p, 0);
      PathsDistinct(gs[1..], parent, i + 1);
      PathsBelow(gs[0].groups, p, 0);
      PathsBelow(gs[1..], parent, i + 1);
      hide PathOf, SomeChild, Paths, AtOrBelow;
      forall q | q in inner ensures q !in [p] && AtOrBelow(q, p) {
        PathNotEmpty(parent, i);
        ChildIsBelow(q, p);
        StrictlyBelow(q, p);
      }
      DistinctConcat([p], inner);
      assert AtOrBelow(p, p) by { StrictlyBelow(p + ".", p); }
      forall q | q in outer ensures q !in [p] + inner {
        OtherBranch(q, parent, i);
        assert q !in [p] && q !in inner;
      }
      DistinctConcat([p] + inner, outer);
      assert Paths(gs, parent, i) == [p] + inner + outer by { PathsSplit(gs, parent, i); }
    }
  }

  lemma PathsSplit(gs: seq<Group>, parent: string, i: nat)
    requires gs != []
    ensures Paths(gs, parent, i)
        == [PathOf(parent, i)] + Paths(gs[0].groups, PathOf(parent, i), 0) + Paths(gs[1..], parent, i + 1)
    ensures 1 + |Paths(gs[0].groups, PathOf(parent, i), 0)| == Size(gs[0])
  {
  }

  lemma PathNotEmpty(parent: string, i: nat)
    ensures PathOf(parent, i) != ""
  {
  }

  lemma StrictlyBelow(q: string, p: string)
    requires p + "." <= q
    ensures q != p && AtOrBelow(q, p) && AtOrBelow(p, p)
  {
  }

  lemma OtherBranch(q: string, parent: string, i: nat)
    requires SomeChild(q, parent, i + 1)
    ensures !AtOrBelow(q, PathOf(parent, i))
  {
    var j: nat :| i + 1 <= j && AtOrBelow(q, PathOf(parent, j));
    if AtOrBelow(q, PathOf(parent, i)) { SiblingsApart(q, parent, i, j); }
  }

  // ----- the page and the rows it stands for -----

  /** A condition as submitted and read again. */
  function Reread(v: ConditionView): Condition {
    var field := Choose(FIELDS, v.field);
    Condition(if field == "header" && v.headerName != "" then "header:" + v.headerName else field,
              Choose(OPERATORS, v.operator), v.value)
  }

  function RereadAll(views: seq<ConditionView>): (cs: seq<Condition>)
    ensures |cs| == |views| && forall i :: 0 <= i < |cs| ==> cs[i] == Reread(views[i])
  {
    seq(|views|, i requires 0 <= i < |views| => Reread(views[i]))
  }

  lemma RereadIsNearest(c: Condition, path: string)
    ensures Reread(ViewOf(c, path)) == Nearest(c) && ViewOf(c, path).group == path
  {
    if IsHeader(c.field) { assert c.field == "header:" + HeaderName(c.field); }
  }

  /** The inputs of one group stand for one row, under the names the rows' numbers have on the page. */
  predicate StandsFor(b: GroupInputs, r: Row<int>, names: seq<string>) {
    && 0 <= r.id < |names| && b.path == names[r.id]
    && (match r.parent case None => b.parent == "" case Some(p) => 0 <= p < |names| && b.parent == names[p])
    && b.operator == r.operator && b.operator in {"AND", "OR"}
    && RereadAll(b.conditions) == r.conditions
    && forall v <- b.conditions :: v.group == b.path
  }

  ghost predicate AllStandFor(doc: seq<GroupInputs>, rows: seq<Row<int>>, names: seq<string>) {
    |doc| == |rows| && forall k :: 0 <= k < |doc| ==> StandsFor(doc[k], rows[k], names)
  }

  lemma StandConcat(a: seq<GroupInputs>, b: seq<GroupInputs>, c: seq<GroupInputs>,
                    ra: seq<Row<int>>, rb: seq<Row<int>>, rc: seq<Row<int>>, names: seq<string>)
    requires AllStandFor(a, ra, names) && AllStandFor(b, rb, names) && AllStandFor(c, rc, names)
    ensures AllStandFor(a + b + c, ra + rb + rc, names)
  {
    hide StandsFor;
  }

  /** The names of a block are the paths of the forest. */
  predicate Named(names: seq<string>, base: nat, paths: seq<string>) {
    base + |paths| <= |names| && forall k :: 0 <= k < |paths| ==> names[base + k] == paths[k]
  }

  lemma NamedParts(names: seq<string>, base: nat, p: string, inner: seq<string>, outer: seq<string>)
    requires Named(names, base, [p] + inner + outer)
    ensures names[base] == p && Named(names, base + 1, inner) && Named(names, base + 1 + |inner|, outer)
  {
    var all := [p] + inner + outer;
    assert names[base + 0] == all[0];
    forall k | 0 <= k < |inner| ensures names[base + 1 + k] == inner[k] {
      assert names[base + (1 + k)] == all[1 + k];
    }
    forall k | 0 <= k < |outer| ensures names[base + 1 + |inner| + k] == outer[k] {
      assert names[base + (1 + |inner| + k)] == all[1 + |inner| + k];
    }
  }

  lemma {:induction false} NormalSize(gs: seq<Group>)
    ensures SizeAll(Normal(gs)) == SizeAll(gs)
    decreases gs
  {
    if gs == [] {
    } else {
      NormalSize(gs[0].groups);
      NormalSize(gs[1..]);
    }
  }

  function HeadInputs(g: Group, path: string, parentPath: string): GroupInputs {
    var v := BuildGroupView(g, path, parentPath);
    GroupInputs(v.path, v.parent, v.operator, v.conditions)
  }

  function HeadRow(g: Group, parent: Option<int>, base: int): Row<int> {
    Row(base, parent, if g.operator == "AND" then "AND" else "OR", NearestAll(g.conditions))
  }

  predicate ParentNamed(parent: Option<int>, parentPath: string, names: seq<string>) {
    match parent case None => parentPath == "" case Some(p) => 0 <= p < |names| && names[p] == parentPath
  }

  lemma HeadStands(g: Group, path: string, parentPath: string, parent: Option<int>, base: int, names: seq<string>)
    requires 0 <= base < |names| && names[base] == path
    requires ParentNamed(parent, parentPath, names)
    ensures StandsFor(HeadInputs(g, path, parentPath), HeadRow(g, parent, base), names)
  {
    var views := ViewsOf(g.conditions, path);
    forall i | 0 <= i < |views| ensures Reread(views[i]) == Nearest(g.conditions[i]) && views[i].group == path {
      RereadIsNearest(g.conditions[i], path);
    }
    hide Reread, Nearest, ViewOf;
    assert RereadAll(views) == NearestAll(g.conditions);
  }

  lemma DocumentSplit(gs: seq<Group>, parentPath: string, i: nat)
    requires gs != []
    ensures var path := PathOf(parentPath, i);
      Document(BuildGroupViews(gs, parentPath, i)) ==
      [HeadInputs(gs[0], path, parentPath)] + Document(BuildGroupViews(gs[0].groups, path, 0))
      + Document(BuildGroupViews(gs[1..], parentPath, i + 1))
  {
    hide PathOf, ViewsOf;
    var v := BuildGroupView(gs[0], PathOf(parentPath, i), parentPath);
    var rest := BuildGroupViews(gs[1..], parentPath, i + 1);
    assert ([v] + rest)[1..] == rest;
  }

  lemma BlockSplit(gs: seq<Group>, parent: Option<int>, base: int)
    requires gs != []
    ensures Block(Normal(gs), parent, base) ==
      [HeadRow(gs[0], parent, base)] + Block(Normal(gs[0].groups), Some(base), base + 1)
      + Block(Normal(gs[1..]), parent, base + Size(gs[0]))
  {
    hide NearestAll, Block;
    NormalSize(gs[0].groups);
    NormalHead(gs);
    BlockUnfold(Normal(gs), parent, base);
  }

  lemma NormalHead(gs: seq<Group>)
    requires gs != []
    ensures Normal(gs) != [] && Normal(gs)[1..] == Normal(gs[1..])
    ensures Normal(gs)[0].groups == Normal(gs[0].groups)
  {
    hide NearestAll;
  }

  lemma BlockUnfold(gs: seq<Group>, parent: Option<int>, base: int)
    requires gs != []
    ensures Block(gs, parent, base)
         == [Row(base, parent, gs[0].operator, gs[0].conditions)] + Block(gs[0].groups, Some(base), base + 1)
            + Block(gs[1..], parent, base + Size(gs[0]))
  {
  }

  lemma PageJoin(gs: seq<Group>, parentPath: string, i: nat, parent: Option<int>, base: nat, names: seq<string>)
    requires gs != [] && base < |names| && names[base] == PathOf(parentPath, i)
        && ParentNamed(parent, parentPath, names)
    requires AllStandFor(Document(BuildGroupViews(gs[0].groups, PathOf(parentPath, i), 0)),
                         Block(Normal(gs[0].groups), Some(base), base + 1), names)
    requires AllStandFor(Document(BuildGroupViews(gs[1..], parentPath, i + 1)),
                         Block(Normal(gs[1..]), parent, base + Size(gs[0])), names)
    ensures AllStandFor(Document(BuildGroupViews(gs, parentPath, i)), Block(Normal(gs), parent, base), names)
  {
    hide StandsFor, AllStandFor, PathOf, NearestAll, Document, Block, BuildGroupViews, Normal, HeadInputs, HeadRow,
         Size;
    var path := PathOf(parentPath, i);
    HeadStands(gs[0], path, parentPath, parent, base, names);
    DocumentSplit(gs, parentPath, i);
    BlockSplit(gs, parent, base);
    OneStands(HeadInputs(gs[0], path, parentPath), HeadRow(gs[0], parent, base), names);
    StandConcat([HeadInputs(gs[0], path, parentPath)],
                Document(BuildGroupViews(gs[0].groups, path, 0)), Document(BuildGroupViews(gs[1..], parentPath, i + 1)),
                [HeadRow(gs[0], parent, base)],
                Block(Normal(gs[0].groups), Some(base), base + 1),
                Block(Normal(gs[1..]), parent, base + Size(gs[0])), names);
  }

  /** The page of a forest stands for the rows of its nearest forest. */
  lemma {:induction false} PageStands(gs: seq<Group>, parentPath: string, i: nat, parent: Option<int>, base: nat,
                                      names: seq<string>)
    requires Named(names, base, Paths(gs, parentPath, i)) && ParentNamed(parent, parentPath, names)
    ensures AllStandFor(Document(BuildGroupViews(gs, parentPath, i)), Block(Normal(gs), parent, base), names)
    decreases gs
  {
    hide *;
    if gs == [] {
      NothingStands(parentPath, i, parent, base, names);
    } else {
      var path := PathOf(parentPath, i);
      ChildrenNamed(gs, parentPath, i, base, names);
      PageStands(gs[0].groups, path, 0, Some(base), base + 1, names);
      PageStands(gs[1..], parentPath, i + 1, parent, base + Size(gs[0]), names);
      PageJoin(gs, parentPath, i, parent, base, names);
    }
  }

  lemma ChildrenNamed(gs: seq<Group>, parentPath: string, i: nat, base: nat, names: seq<string>)
    requires gs != [] && Named(names, base, Paths(gs, parentPath, i))
    ensures base < |names| && names[base] == PathOf(parentPath, i)
    ensures Named(names, base + 1, Paths(gs[0].groups, PathOf(parentPath, i), 0))
    ensures ParentNamed(Some(base), PathOf(parentPath, i), names)
    ensures Named(names, base + Size(gs[0]), Paths(gs[1..], parentPath, i + 1))
  {
    hide Named, PathOf, Paths, Size;
    PathsSplit(gs, parentPath, i);
    HeadInRange(names, base, Paths(gs, parentPath, i));
    NamedParts(names, base, PathOf(parentPath, i), Paths(gs[0].groups, PathOf(parentPath, i), 0),
               Paths(gs[1..], parentPath, i + 1));
  }

  lemma NothingStands(parentPath: string, i: nat, parent: Option<int>, base: nat, names: seq<string>)
    ensures AllStandFor(Document(BuildGroupViews([], parentPath, i)), Block(Normal([]), parent, base), names)
  {
  }

  lemma OneStands(b: GroupInputs, r: Row<int>, names: seq<string>)
    requires StandsFor(b, r, names)
    ensures AllStandFor([b], [r], names)
  {
  }

  lemma HeadInRange(names: seq<string>, base: nat, paths: seq<string>)
    requires Named(names, base, paths) && paths != []
    ensures base < |names|
  {
  }

  // ----- renaming ids does not change a tree -----

  function Rename(p: Option<int>, names: seq<string>): Option<string>
    requires p.Some? ==> 0 <= p.value < |names|
  {
    if p.None? then None else Some(names[p.value])
  }

  /** The rows under the names of their numbers. */
  ghost predicate Renamed(rows: seq<Row<int>>, page: seq<Row<string>>, names: seq<string>) {
    && |page| == |rows|
    && forall k :: 0 <= k < |rows| ==>
         && 0 <= rows[k].id < |names| && (rows[k].parent.Some? ==> 0 <= rows[k].parent.value < |names|)
         && page[k] == Row(names[rows[k].id], Rename(rows[k].parent, names), rows[k].operator, rows[k].conditions)
  }

  lemma SameName(names: seq<string>, a: int, b: int)
    requires Distinct(names) && 0 <= a < |names| && 0 <= b < |names| && names[a] == names[b]
    ensures a == b
  {
  }

  lemma SameParent(names: seq<string>, a: Option<int>, b: Option<int>)
    requires Distinct(names) && (a.Some? ==> 0 <= a.value < |names|) && (b.Some? ==> 0 <= b.value < |names|)
    ensures Rename(a, names) == Rename(b, names) <==> a == b
  {
    if Rename(a, names) == Rename(b, names) && a.Some? { SameName(names, a.value, b.value); }
  }

  lemma RenamedOneRow(rows: seq<Row<int>>, page: seq<Row<string>>, names: seq<string>)
    requires Renamed(rows, page, names) && Distinct(names) && OneRowPerId(rows)
    ensures OneRowPerId(page)
  {
    forall i, j | 0 <= i < |page| && 0 <= j < |page| && page[i].id == page[j].id ensures page[i] == page[j] {
      SameName(names, rows[i].id, rows[j].id);
    }
  }

  lemma BuildStep<K>(all: seq<Row<K>>, parent: Option<K>, i: nat)
    requires OneRowPerId(all) && Rooted(all, parent) && i < |all|
    ensures all[i].parent != parent ==> BuildFrom(all, parent, i) == BuildFrom(all, parent, i + 1)
    ensures all[i].parent == parent ==>
      Rooted(all, Some(all[i].id)) &&
      Strip(BuildFrom(all, parent, i)) ==
      [Group(all[i].operator, all[i].conditions, Strip(BuildFrom(all, Some(all[i].id), 0)))]
        + Strip(BuildFrom(all, parent, i + 1))
  {
    if all[i].parent == parent {
      ChildDeeper(all, parent, all[i]);
      var node := Node(all[i].id, all[i].operator, all[i].conditions, BuildFrom(all, Some(all[i].id), 0));
      var rest := BuildFrom(all, parent, i + 1);
      assert ([node] + rest)[1..] == rest;
    }
  }

  /** A tree built under other names is the same forest. */
  lemma {:induction false} RenamedTree(rows: seq<Row<int>>, page: seq<Row<string>>, names: seq<string>,
                                       parent: Option<int>, i: nat)
    requires Renamed(rows, page, names) && Distinct(names) && OneRowPerId(rows) && OneRowPerId(page)
    requires (parent.Some? ==> 0 <= parent.value < |names|) && Rooted(rows, parent)
        && Rooted(page, Rename(parent, names)) && i <= |rows|
    ensures Strip(BuildFrom(page, Rename(parent, names), i)) == Strip(BuildFrom(rows, parent, i))
    decreases |rows| - Depth(rows, parent), |rows| - i
  {
    hide BuildFrom, Strip, OneRowPerId, Rooted, Distinct;
    if i == |rows| {
      NothingLeft(rows, parent);
      NothingLeft(page, Rename(parent, names));
    } else {
      BuildStep(rows, parent, i);
      BuildStep(page, Rename(parent, names), i);
      SameParent(names, rows[i].parent, parent);
      RenamedTree(rows, page, names, parent, i + 1);
      if rows[i].parent == parent {
        ChildDeeper(rows, parent, rows[i]);
        RenamedTree(rows, page, names, Some(rows[i].id), 0);
      }
    }
  }

  lemma NothingLeft<K>(all: seq<Row<K>>, parent: Option<K>)
    requires OneRowPerId(all) && Rooted(all, parent)
    ensures Strip(BuildFrom(all, parent, |all|)) == []
  {
  }

  // ----- reading the conditions -----

  function ForOne(v: ConditionView, path: string): seq<Condition> {
    if v.group == path then [Reread(v)] else []
  }

  /** What a group collects from the condition rows. */
  function For(views: seq<ConditionView>, path: string): seq<Condition> {
    if views == [] then [] else ForOne(views[0], path) + For(views[1..], path)
  }

  lemma {:induction false} ForConcat(a: seq<ConditionView>, b: seq<ConditionView>, path: string)
    ensures For(a + b, path) == For(a, path) + For(b, path)
  {
    hide ForOne;
    if a == [] {
      assert a + b == b;
    } else {
      assert (a + b)[1..] == a[1..] + b;
      ForConcat(a[1..], b, path);
      Concat(ForOne(a[0], path), For(a[1..], path), For(b, path));
    }
  }

  lemma {:induction false} ForOwn(views: seq<ConditionView>, path: string, own: string)
    requires forall v <- views :: v.group == own
    ensures For(views, path) == if path == own then RereadAll(views) else []
  {
    hide Reread;
    if views == [] {
    } else {
      assert views[0] in views;
      ForOwn(views[1..], path, own);
      assert RereadAll(views) == [Reread(views[0])] + RereadAll(views[1..]);
    }
  }

  ghost predicate OwnConditions(doc: seq<GroupInputs>) {
    && (forall b <- doc :: forall v <- b.conditions :: v.group == b.path)
    && forall i, j :: 0 <= i < j < |doc| ==> doc[i].path != doc[j].path
  }

  lemma {:induction false} ForOthers(doc: seq<GroupInputs>, path: string)
    requires OwnConditions(doc) && forall b <- doc :: b.path != path
    ensures For(ConditionRows(doc), path) == []
  {
    if doc == [] {
    } else {
      assert doc[0] in doc;
      ForOwn(doc[0].conditions, path, doc[0].path);
      ForConcat(doc[0].conditions, ConditionRows(doc[1..]), path);
      ForOthers(doc[1..], path);
    }
  }

  lemma ForFirst(doc: seq<GroupInputs>, path: string)
    requires OwnConditions(doc) && doc != []
    ensures For(ConditionRows(doc), path)
        == (if path == doc[0].path then RereadAll(doc[0].conditions) else []) + For(ConditionRows(doc[1..]), path)
  {
    assert doc[0] in doc;
    ForOwn(doc[0].conditions, path, doc[0].path);
    ForConcat(doc[0].conditions, ConditionRows(doc[1..]), path);
  }

  lemma OwnTail(doc: seq<GroupInputs>)
    requires OwnConditions(doc) && doc != []
    ensures OwnConditions(doc[1..])
    ensures forall b <- doc[1..] :: b.path != doc[0].path
  {
  }

  /** Each group collects its own conditions, in order, and no others. */
  lemma {:induction false} ForEach(doc: seq<GroupInputs>, k: nat)
    requires OwnConditions(doc) && k < |doc|
    ensures For(ConditionRows(doc), doc[k].path) == RereadAll(doc[k].conditions)
  {
    ForFirst(doc, doc[k].path);
    OwnTail(doc);
    hide For, ConditionRows, RereadAll, OwnConditions;
    if k == 0 {
      ForOthers(doc[1..], doc[0].path);
    } else {
      assert doc[k] == doc[1..][k - 1] && doc[k] in doc[1..];
      ForEach(doc[1..], k - 1);
    }
  }

  // ----- what the parser makes of a printed page -----

  lemma StandsTail(doc: seq<GroupInputs>, rows: seq<Row<int>>, names: seq<string>)
    requires AllStandFor(doc, rows, names) && doc != []
    ensures StandsFor(doc[0], rows[0], names) && AllStandFor(doc[1..], rows[1..], names)
  {
    hide StandsFor;
    forall k | 0 <= k < |doc| - 1 ensures StandsFor(doc[1..][k], rows[1..][k], names) {
      assert StandsFor(doc[k + 1], rows[k + 1], names);
    }
  }

  lemma RereadConcat(a: seq<ConditionView>, b: seq<ConditionView>)
    ensures RereadAll(a + b) == RereadAll(a) + RereadAll(b)
  {
    hide Reread;
  }

  lemma {:induction false} RereadFlat(doc: seq<GroupInputs>, rows: seq<Row<int>>, names: seq<string>)
    requires AllStandFor(doc, rows, names)
    ensures RereadAll(ConditionRows(doc)) == RowConditions(rows)
  {
    hide AllStandFor, Reread;
    StandLength(doc, rows, names);
    if doc == [] {
    } else {
      StandsTail(doc, rows, names);
      RereadFlat(doc[1..], rows[1..], names);
      RereadConcat(doc[0].conditions, ConditionRows(doc[1..]));
    }
  }

  function RowConditions(rows: seq<Row<int>>): seq<Condition> {
    if rows == [] then [] else rows[0].conditions + RowConditions(rows[1..])
  }

  lemma {:induction false} RowConditionsConcat(a: seq<Row<int>>, b: seq<Row<int>>)
    ensures RowConditions(a + b) == RowConditions(a) + RowConditions(b)
  {
    if a == [] {
      assert a + b == b;
    } else {
      assert (a + b)[1..] == a[1..] + b;
      RowConditionsConcat(a[1..], b);
      Concat(a[0].conditions, RowConditions(a[1..]), RowConditions(b));
    }
  }

  /** The rows of a forest hold its conditions in document order. */
  lemma {:induction false} BlockConditions(gs: seq<Group>, parent: Option<int>, base: int)
    ensures RowConditions(Block(gs, parent, base)) == Flatten(gs)
    decreases gs
  {
    if gs == [] {
    } else {
      var row := Row(base, parent, gs[0].operator, gs[0].conditions);
      var inner, outer := Block(gs[0].groups, Some(base), base + 1), Block(gs[1..], parent, base + Size(gs[0]));
      BlockConditions(gs[0].groups, Some(base), base + 1);
      BlockConditions(gs[1..], parent, base + Size(gs[0]));
      RowConditionsConcat([row] + inner, outer);
      assert ([row] + inner)[1..] == inner;
    }
  }

  /** The condition arrays of a form hold these rows. */
  ghost predicate Carried(form: Form, views: seq<ConditionView>) {
    && |form.condGroups| == |form.fields| == |form.headerNames| == |form.ops| == |form.vals| == |views|
    && forall i :: 0 <= i < |views| ==> form.condGroups[i] == views[i].group && ConditionAt(form, i) == Reread(views[i])
  }

  lemma SubmitCarries(views: seq<GroupView>)
    ensures Carried(Submit(views), ConditionRows(Document(views)))
  {
  }

  /** Every node has collected its conditions from the rest of the rows. */
  ghost predicate Collected(nodes: Nodes, result: Nodes, views: seq<ConditionView>) {
    && result.Keys == nodes.Keys
    && forall id <- nodes :: result[id] == nodes[id].(conditions := nodes[id].conditions + For(views, id))
  }

  lemma CollectOne(nodes: Nodes, result: Nodes, views: seq<ConditionView>)
    requires views != [] && Collected(AddCondition(nodes, views[0].group, Reread(views[0])), result, views[1..])
    ensures Collected(nodes, result, views)
  {
    hide Reread;
    forall id | id in nodes ensures result[id] == nodes[id].(conditions := nodes[id].conditions + For(views, id)) {
      Concat(nodes[id].conditions, ForOne(views[0], id), For(views[1..], id));
      assert nodes[id].conditions + [] == nodes[id].conditions;
    }
  }

  lemma {:induction false} ConditionsCollected(form: Form, compiles: string -> bool, nodes: Nodes,
                                               views: seq<ConditionView>, i: nat)
    requires Carried(form, views) && i <= |views|
    ensures var r := AddConditions(form, compiles, nodes, i);
      match FirstBad(compiles, RereadAll(views[i..]))
      case Some(v) => r == Err(v)
      case None => r.Ok? && Collected(nodes, r.value, views[i..])
    decreases |views| - i
  {
    hide Reread, ConditionAt, BadRegex;
    if i < |views| {
      assert views[i..][1..] == views[i + 1..];
      assert RereadAll(views[i..])[1..] == RereadAll(views[i + 1..]);
      var c := ConditionAt(form, i);
      var nodes1 := AddCondition(nodes, views[i].group, c);
      ConditionsCollected(form, compiles, nodes1, views, i + 1);
      hide AddCondition, Collected;
      if FirstBad(compiles, RereadAll(views[i..])).None? {
        CollectOne(nodes, AddConditions(form, compiles, nodes1, i + 1).value, views[i..]);
      }
    } else {
      assert views[i..] == [];
    }
  }

  // ----- the groups -----

  ghost predicate Numbered(rows: seq<Row<int>>, base: int) {
    forall k :: 0 <= k < |rows| ==> rows[k].id == base + k
  }

  lemma NumberedConcat(a: seq<Row<int>>, b: seq<Row<int>>, c: seq<Row<int>>, base: int)
    requires Numbered(a, base) && Numbered(b, base + |a|) && Numbered(c, base + |a| + |b|)
    ensures Numbered(a + b + c, base)
  {
  }

  lemma {:induction false} BlockNumbered(gs: seq<Group>, parent: Option<int>, base: int)
    ensures Numbered(Block(gs, parent, base), base)
    decreases gs
  {
    if gs == [] {
    } else {
      BlockNumbered(gs[0].groups, Some(base), base + 1);
      BlockNumbered(gs[1..], parent, base + Size(gs[0]));
      hide Numbered;
      var row := [Row(base, parent, gs[0].operator, gs[0].conditions)];
      assert Numbered(row, base) by { OneNumbered(row[0]); }
      NumberedConcat(row, Block(gs[0].groups, Some(base), base + 1), Block(gs[1..], parent, base + Size(gs[0])), base);
    }
  }

  lemma OneNumbered(r: Row<int>)
    ensures Numbered([r], r.id)
  {
  }

  lemma DistinctAt(ids: seq<string>, i: nat, j: nat)
    requires Distinct(ids) && i < j < |ids|
    ensures ids[i] != ids[j]
  {
  }

  lemma {:induction false} NodeRead(form: Form, n: nat, k: nat)
    requires Distinct(form.groupIds) && k < n <= |form.groupIds|
    ensures form.groupIds[k] in NodesUpTo(form, n)
    ensures NodesUpTo(form, n)[form.groupIds[k]] == GNode(ParentAt(form, k), OpAt(form, k), [], [])
    decreases n
  {
    hide ParentAt, OpAt, Distinct;
    if k < n - 1 {
      NodeRead(form, n - 1, k);
      assert form.groupIds[n - 1] != form.groupIds[k] by { DistinctAt(form.groupIds, k, n - 1); }
    }
  }

  lemma PathsNotEmpty(gs: seq<Group>, parent: string, i: nat)
    ensures "" !in Paths(gs, parent, i)
  {
    PathsBelow(gs, parent, i);
  }

  /** The page's group arrays, read back, are the rows under their names. */
  lemma OneRowBack(form: Form, b: GroupInputs, r: Row<int>, names: seq<string>, nodes: Nodes, result: Nodes,
                   views: seq<ConditionView>, k: nat)
    requires StandsFor(b, r, names) && "" !in names
    requires k < |form.groupIds| && k < |form.groupParents| && k < |form.groupOps|
    requires form.groupIds[k] == b.path && form.groupParents[k] == b.parent && form.groupOps[k] == b.operator
    requires b.path in nodes && nodes[b.path] == GNode(ParentAt(form, k), OpAt(form, k), [], [])
    requires Collected(nodes, result, views) && For(views, b.path) == RereadAll(b.conditions)
    ensures b.path in result
    ensures var n := result[b.path];
      && (if n.parent == "" then None else Some(n.parent)) == Rename(r.parent, names)
      && n.operator == r.operator && n.conditions == r.conditions
  {
    hide For;
    assert [] + RereadAll(b.conditions) == RereadAll(b.conditions);
    if r.parent.Some? { assert names[r.parent.value] in names; }
  }

  lemma PageOwns(doc: seq<GroupInputs>, rows: seq<Row<int>>, names: seq<string>)
    requires AllStandFor(doc, rows, names) && Numbered(rows, 0) && Distinct(names) && |names| == |rows|
    ensures OwnConditions(doc) && forall k :: 0 <= k < |doc| ==> doc[k].path == names[k]
  {
    hide Reread;
    forall k | 0 <= k < |doc|
      ensures doc[k].path == names[k] && forall v <- doc[k].conditions :: v.group == doc[k].path
    {
      assert StandsFor(doc[k], rows[k], names);
    }
  }

  /** The final nodes hold row k under its name. */
  ghost predicate RowHeld(rows: seq<Row<int>>, names: seq<string>, result: Nodes, k: nat)
    requires k < |rows| && k < |names|
  {
    && names[k] in result && (rows[k].parent.Some? ==> 0 <= rows[k].parent.value < |names|)
    && var n := result[names[k]];
      && (if n.parent == "" then None else Some(n.parent)) == Rename(rows[k].parent, names)
      && n.operator == rows[k].operator && n.conditions == rows[k].conditions
  }

  lemma HoldsRow(views: seq<GroupView>, rows: seq<Row<int>>, names: seq<string>, result: Nodes, k: nat)
    requires var doc := Document(views);
      && OwnConditions(doc) && k < |doc| == |rows| == |names| && doc[k].path == names[k]
           && StandsFor(doc[k], rows[k], names)
      && Collected(NodesUpTo(Submit(views), |doc|), result, ConditionRows(doc))
    requires Distinct(names) && "" !in names && Submit(views).groupIds == names
    ensures RowHeld(rows, names, result, k)
  {
    hide Collected, For, RereadAll, OwnConditions, Document, ConditionRows, NodesUpTo, Distinct;
    var doc := Document(views);
    var form := Submit(views);
    ForEach(doc, k);
    NodeRead(form, |doc|, k);
    OneRowBack(form, doc[k], rows[k], names, NodesUpTo(form, |doc|), result, ConditionRows(doc), k);
  }

  lemma PageIds(views: seq<GroupView>, names: seq<string>)
    requires var doc := Document(views); |doc| == |names| && forall k :: 0 <= k < |doc| ==> doc[k].path == names[k]
    ensures Submit(views).groupIds == names
  {
  }

  lemma PageBack(views: seq<GroupView>, rows: seq<Row<int>>, names: seq<string>, result: Nodes)
    requires var doc := Document(views);
      && AllStandFor(doc, rows, names) && Numbered(rows, 0) && Distinct(names) && "" !in names && |names| == |rows|
      && Collected(NodesUpTo(Submit(views), |doc|), result, ConditionRows(doc))
    ensures var ids := Submit(views).groupIds;
      (forall id <- ids :: id in result) && Renamed(rows, RowsOf(ids, result), names)
  {
    hide Collected, Distinct, Document, ConditionRows, NodesUpTo, OwnConditions, Submit, StandsFor;
    var doc := Document(views);
    PageOwns(doc, rows, names);
    PageIds(views, names);
    forall k | 0 <= k < |rows| ensures RowHeld(rows, names, result, k) {
      HoldsRow(views, rows, names, result, k);
    }
    AllHeld(rows, names, result);
  }

  lemma AllHeld(rows: seq<Row<int>>, names: seq<string>, result: Nodes)
    requires |names| == |rows| && Numbered(rows, 0) && forall k :: 0 <= k < |rows| ==> RowHeld(rows, names, result, k)
    ensures (forall id <- names :: id in result) && Renamed(rows, RowsOf(names, result), names)
  {
    forall id | id in names ensures id in result {
      var k :| 0 <= k < |names| && names[k] == id;
      assert RowHeld(rows, names, result, k);
    }
    forall k | 0 <= k < |rows|
      ensures 0 <= rows[k].id < |names| && (rows[k].parent.Some? ==> 0 <= rows[k].parent.value < |names|)
      ensures RowsOf(names, result)[k]
          == Row(names[rows[k].id], Rename(rows[k].parent, names), rows[k].operator, rows[k].conditions)
    {
      assert RowHeld(rows, names, result, k);
    }
  }

  lemma NumberedOneRow(rows: seq<Row<int>>)
    requires Numbered(rows, 0)
    ensures OneRowPerId(rows)
  {
  }

  lemma SameForest(gs: seq<Group>, page: seq<Row<string>>, names: seq<string>)
    requires Renamed(Block(gs, None, 0), page, names) && Distinct(names)
    ensures OneRowPerId(page) && Strip(BuildGroupTree(page)) == gs
  {
    var rows := Block(gs, None, 0);
    BlockNumbered(gs, None, 0);
    NumberedOneRow(rows);
    RenamedOneRow(rows, page, names);
    hide Renamed, Block, Strip, BuildFrom, OneRowPerId, Distinct, Numbered;
    BlockIsForest(gs, 0);
    RootRooted(rows);
    RootRooted(page);
    RenamedTree(rows, page, names, None, 0);
  }

  lemma PrintsSome(gs: seq<Group>, compiles: string -> bool)
    requires gs != []
    ensures ParseConditions(Print(gs), compiles) ==
            match FirstBad(compiles, Flatten(Normal(gs)))
            case Some(v) => Err(v)
            case None => Ok(Normal(gs))
  {
    hide BuildGroupViews, Document, ConditionRows, Normal, Paths, Flatten, Block, Strip, BuildGroupTree, AllStandFor,
         Carried, Collected, Renamed, NodesUpTo, AddConditions, RereadAll, RowConditions, FirstBad, Distinct, Numbered;
    var views := BuildGroupViews(gs, "", 0);
    var doc := Document(views);
    var names := Paths(gs, "", 0);
    var rows := Block(Normal(gs), None, 0);
    NormalSize(gs);
    NamesFromTheStart(names);
    PageStands(gs, "", 0, None, 0, names);
    PathsDistinct(gs, "", 0);
    PathsNotEmpty(gs, "", 0);
    BlockNumbered(Normal(gs), None, 0);
    RereadFlat(doc, rows, names);
    BlockConditions(Normal(gs), None, 0);
    SubmitCarries(views);
    var form := Submit(views);
    var conditions := ConditionRows(doc);
    assert conditions[0..] == conditions;
    StandLength(doc, rows, names);
    assert |doc| > 0 by { SomeNormal(gs); }
    ConditionsCollected(form, compiles, NodesUpTo(form, |doc|), conditions, 0);
    if FirstBad(compiles, Flatten(Normal(gs))).None? {
      var result := AddConditions(form, compiles, NodesUpTo(form, |doc|), 0).value;
      PageBack(views, rows, names, result);
      SameForest(Normal(gs), RowsOf(form.groupIds, result), names);
      SomeNormal(gs);
    }
  }

  lemma SomeNormal(gs: seq<Group>)
    requires gs != []
    ensures Normal(gs) != [] && SizeAll(gs) > 0
  {
  }

  lemma StandLength(doc: seq<GroupInputs>, rows: seq<Row<int>>, names: seq<string>)
    requires AllStandFor(doc, rows, names)
    ensures |doc| == |rows|
  {
  }

  lemma NamesFromTheStart(names: seq<string>)
    ensures Named(names, 0, names) && ParentNamed(None, "", names)
  {
  }

  // ----- main results -----

  /** Main result. Printing any forest and reading the page back gives its nearest forest, unless one of its
      patterns does not compile, and then an error naming the first such pattern. */
  lemma FormGivesNearest(gs: seq<Group>, compiles: string -> bool)
    ensures ParseConditions(Print(gs), compiles) ==
            match FirstBad(compiles, Flatten(Normal(gs)))
            case Some(v) => Err(v)
            case None => Ok(if gs == [] then [NO_CONDITIONS] else Normal(gs))
  {
    if gs == [] {
      EmptyPage();
      PrintsSome([NO_CONDITIONS], compiles);
      assert Normal([NO_CONDITIONS]) == [NO_CONDITIONS] && Flatten([NO_CONDITIONS]) == [];
    } else {
      PrintsSome(gs, compiles);
    }
  }

  lemma EmptyPage()
    ensures Print([]) == Print([NO_CONDITIONS])
  {
    assert Decimal(0) == "0";
    assert PathOf("", 0) == "g0";
    var gs := [NO_CONDITIONS];
    assert gs[1..] == [];
    assert BuildGroupView(gs[0], "g0", "") == EMPTY_ROOT;
    assert BuildGroupViews(gs, "", 0) == [EMPTY_ROOT];
  }

  /** Main result. The form gives a forest back unchanged exactly when there is one, its operators are AND and
      OR, the form can show each condition, and the patterns compile. A rule without groups, which holds for
      every message, comes back with one empty OR group, which holds for none. */
  lemma FormRoundTrip(gs: seq<Group>, compiles: string -> bool)
    ensures ParseConditions(Print(gs), compiles) == Ok(gs) <==>
            gs != [] && AllAndOr(gs) && AllShown(gs) && FirstBad(compiles, Flatten(gs)).None?
  {
    FormGivesNearest(gs, compiles);
    NormalIff(gs);
    hide ParseConditions, Print, AllAndOr, AllShown, FirstBad, Flatten;
  }
}
