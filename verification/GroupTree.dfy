/**
 `buildGroupTree` of internal/db/rules.go, over any rows: it ends even when parent links run in circles,
 and it shows exactly the rows whose parents lead to a root, each once.
*/
module GroupTree {
  import opened Wrappers
  import opened RuleTypes
  import opened Seqs

  /** A group row with its conditions attached, before the tree is built. */
  datatype Row<K> = Row(id: K, parent: Option<K>, operator: string, conditions: seq<Condition>)

  /** A group as loaded: it keeps its id. */
  datatype Node<K> = Node(id: K, operator: string, conditions: seq<Condition>, groups: seq<Node<K>>)

  /** Rows with the same id are the same row. */
  ghost predicate OneRowPerId<K>(all: seq<Row<K>>) {
    forall i, j :: 0 <= i < |all| && 0 <= j < |all| && all[i].id == all[j].id ==> all[i] == all[j]
  }

  /** The primary key. */
  ghost predicate UniqueIds<K>(all: seq<Row<K>>) {
    forall i, j :: 0 <= i < j < |all| ==> all[i].id != all[j].id
  }

  predicate Has<K(==)>(all: seq<Row<K>>, id: K) {
    exists r <- all :: r.id == id
  }

  ghost function Find<K>(all: seq<Row<K>>, id: K): (r: Row<K>)
    requires Has(all, id)
    ensures r in all && r.id == id
  {
    var r :| r in all && r.id == id;
    r
  }

  lemma FindUnique<K>(all: seq<Row<K>>, r: Row<K>)
    requires OneRowPerId(all) && r in all
    ensures Has(all, r.id) && Find(all, r.id) == r
  {
  }

  /** From p it takes d parent links to run out of parents. */
  ghost predicate Chain<K>(all: seq<Row<K>>, p: Option<K>, d: nat)
    decreases d
  {
    match p
    case None => d == 0
    case Some(id) => d > 0 && Has(all, id) && Chain(all, Find(all, id).parent, d - 1)
  }

  ghost predicate Rooted<K>(all: seq<Row<K>>, p: Option<K>) {
    exists d: nat :: Chain(all, p, d)
  }

  lemma {:induction false} ChainUnique<K>(all: seq<Row<K>>, p: Option<K>, d: nat, e: nat)
    requires Chain(all, p, d) && Chain(all, p, e)
    ensures d == e
    decreases d
  {
    if p.None? {
    } else {
      ChainUnique(all, Find(all, p.value).parent, d - 1, e - 1);
    }
  }

  ghost function Depth<K>(all: seq<Row<K>>, p: Option<K>): (d: nat)
    requires Rooted(all, p)
    ensures Chain(all, p, d)
  {
    var d: nat :| Chain(all, p, d);
    d
  }

  /** The ids on the way up from p. */
  ghost function Above<K>(all: seq<Row<K>>, p: Option<K>, d: nat): set<K>
    requires Chain(all, p, d)
    decreases d
  {
    if p.None? then {} else {p.value} + Above(all, Find(all, p.value).parent, d - 1)
  }

  lemma {:induction false} AboveHasShorterChains<K>(all: seq<Row<K>>, p: Option<K>, d: nat, x: K)
    requires Chain(all, p, d) && x in Above(all, p, d)
    ensures exists e: nat :: 0 < e <= d && Chain(all, Some(x), e)
    decreases d
  {
    if x == p.value {
      assert Chain(all, Some(x), d);
    } else {
      AboveHasShorterChains(all, Find(all, p.value).parent, d - 1, x);
    }
  }

  lemma {:induction false} AboveCount<K>(all: seq<Row<K>>, p: Option<K>, d: nat)
    requires Chain(all, p, d)
    ensures |Above(all, p, d)| == d
    ensures forall x <- Above(all, p, d) :: Has(all, x)
    decreases d
  {
    if p.None? {
    } else {
      var q := Find(all, p.value).parent;
      AboveCount(all, q, d - 1);
      if p.value in Above(all, q, d - 1) {
        AboveHasShorterChains(all, q, d - 1, p.value);
        var e: nat :| 0 < e <= d - 1 && Chain(all, Some(p.value), e);
        ChainUnique(all, p, d, e);
      }
    }
  }

  function Ids<K(==)>(all: seq<Row<K>>): set<K> {
    set r | r in all :: r.id
  }

  lemma {:induction false} IdsCount<K>(all: seq<Row<K>>)
    ensures |Ids(all)| <= |all|
  {
    if all == [] {
    } else {
      IdsCount(all[1..]);
      assert Ids(all) == {all[0].id} + Ids(all[1..]);
    }
  }

  /** No chain is longer than the table. */
  lemma ChainBound<K>(all: seq<Row<K>>, p: Option<K>, d: nat)
    requires Chain(all, p, d)
    ensures d <= |all|
  {
    AboveCount(all, p, d);
    IdsCount(all);
    forall x | x in Above(all, p, d) ensures x in Ids(all) {
      var r := Find(all, x);
      assert r in all;
    }
    SubsetSize(Above(all, p, d), Ids(all));
  }

  /** A row under a rooted parent is one link deeper, and still within the table. */
  lemma ChildDeeper<K>(all: seq<Row<K>>, parent: Option<K>, r: Row<K>)
    requires OneRowPerId(all) && Rooted(all, parent) && r in all && r.parent == parent
    ensures Rooted(all, Some(r.id))
    ensures Depth(all, Some(r.id)) == Depth(all, parent) + 1 <= |all|
  {
    FindUnique(all, r);
    var d := Depth(all, parent);
    assert Chain(all, Some(r.id), d + 1);
    ChainUnique(all, Some(r.id), d + 1, Depth(all, Some(r.id)));
    ChainBound(all, Some(r.id), d + 1);
  }

  lemma RootRooted<K>(all: seq<Row<K>>)
    ensures Rooted(all, None)
  {
    assert Chain(all, None, 0);
  }

  /** The loop of `buildGroupTree` from row i on. Nothing is asked of the parent links. */
  function BuildFrom<K(==)>(all: seq<Row<K>>, parent: Option<K>, i: nat): seq<Node<K>>
    requires OneRowPerId(all) && Rooted(all, parent) && i <= |all|
    decreases |all| - Depth(all, parent), |all| - i
  {
    if i == |all| then []
    else if all[i].parent == parent then
      ChildDeeper(all, parent, all[i]);
      [Node(all[i].id, all[i].operator, all[i].conditions, BuildFrom(all, Some(all[i].id), 0))]
      + BuildFrom(all, parent, i + 1)
    else BuildFrom(all, parent, i + 1)
  }

  function BuildGroupTree<K(==)>(all: seq<Row<K>>): seq<Node<K>>
    requires OneRowPerId(all)
  {
    RootRooted(all);
    BuildFrom(all, None, 0)
  }

  /** A loaded forest without its ids. */
  function Strip<K>(nodes: seq<Node<K>>): seq<Group>
    decreases nodes
  {
    if nodes == [] then []
    else [Group(nodes[0].operator, nodes[0].conditions, Strip(nodes[0].groups))] + Strip(nodes[1..])
  }

  // ----- what the tree shows -----

  /** How often an id occurs in a forest. */
  function Count<K(==)>(nodes: seq<Node<K>>, id: K): nat
    decreases nodes
  {
    if nodes == [] then 0
    else (if nodes[0].id == id then 1 else 0) + Count(nodes[0].groups, id) + Count(nodes[1..], id)
  }

  lemma {:induction false} CountAppend<K>(a: seq<Node<K>>, b: seq<Node<K>>, id: K)
    ensures Count(a + b, id) == Count(a, id) + Count(b, id)
    decreases |a|
  {
    if a == [] {
      assert a + b == b;
    } else {
      assert (a + b)[1..] == a[1..] + b;
      CountAppend(a[1..], b, id);
    }
  }

  /** The ancestor of x at depth j, where x itself is at depth d. */
  ghost function AncestorAt<K>(all: seq<Row<K>>, x: K, d: nat, j: nat): (y: K)
    requires Chain(all, Some(x), d) && 1 <= j <= d
    ensures Chain(all, Some(y), j)
    decreases d
  {
    if j == d then x
    else
      assert Chain(all, Find(all, x).parent, d - 1);
      AncestorAt(all, Find(all, x).parent.value, d - 1, j)
  }

  lemma {:induction false} AncestorParent<K>(all: seq<Row<K>>, x: K, d: nat, j: nat)
    requires Chain(all, Some(x), d) && 1 <= j <= d
    ensures Find(all, AncestorAt(all, x, d, j)).parent == if j == 1 then None else Some(AncestorAt(all, x, d, j - 1))
    decreases d
  {
    if j < d { AncestorParent(all, Find(all, x).parent.value, d - 1, j); }
    else if j > 1 { assert AncestorAt(all, x, d, d - 1) == Find(all, x).parent.value; }
  }

  /** The part of the table from row i on holds the next link from `parent` towards x. */
  ghost predicate LeadsTo<K>(all: seq<Row<K>>, parent: Option<K>, i: nat, x: K, d: nat)
    requires Chain(all, Some(x), d) && Rooted(all, parent)
  {
    var j := Depth(all, parent) + 1;
    j <= d && exists k :: i <= k < |all| && all[k].parent == parent && all[k].id == AncestorAt(all, x, d, j)
  }

  /** A rooted row is shown once under the parent it descends from, and nowhere else. */
  lemma {:induction false} RootedCount<K>(all: seq<Row<K>>, parent: Option<K>, i: nat, x: K, d: nat)
    requires UniqueIds(all) && Rooted(all, parent) && i <= |all| && Chain(all, Some(x), d)
    ensures Count(BuildFrom(all, parent, i), x) == if LeadsTo(all, parent, i, x, d) then 1 else 0
    decreases |all| - Depth(all, parent), |all| - i
  {
    if i >= |all| {
    } else {
      var rest := BuildFrom(all, parent, i + 1);
      RootedCount(all, parent, i + 1, x, d);
      if all[i].parent == parent {
        ChildDeeper(all, parent, all[i]);
        var id := all[i].id;
        var below := BuildFrom(all, Some(id), 0);
        RootedCount(all, Some(id), 0, x, d);
        var node := Node(id, all[i].operator, all[i].conditions, below);
        CountAppend([node], rest, x);
        assert [node][1..] == [];
        assert Count([node], x) == (if id == x then 1 else 0) + Count(below, x);
        UnderChild(all, parent, i, x, d);
      }
    }
  }

  /** x is row i or below it exactly when row i is the ancestor of x at that depth. */
  lemma UnderChild<K>(all: seq<Row<K>>, parent: Option<K>, i: nat, x: K, d: nat)
    requires UniqueIds(all) && Rooted(all, parent) && i < |all| && Chain(all, Some(x), d)
    requires all[i].parent == parent && Rooted(all, Some(all[i].id))
    requires Depth(all, Some(all[i].id)) == Depth(all, parent) + 1
    ensures var j := Depth(all, parent) + 1; var id := all[i].id;
      && (LeadsTo(all, Some(id), 0, x, d)
          ==> id != x && !LeadsTo(all, parent, i + 1, x, d) && LeadsTo(all, parent, i, x, d))
      && (id == x ==> !LeadsTo(all, parent, i + 1, x, d) && LeadsTo(all, parent, i, x, d))
      && (LeadsTo(all, parent, i, x, d) && !LeadsTo(all, parent, i + 1, x, d)
          ==> id == x || LeadsTo(all, Some(id), 0, x, d))
      && (LeadsTo(all, parent, i + 1, x, d) ==> LeadsTo(all, parent, i, x, d))
  {
    var j := Depth(all, parent) + 1;
    var id := all[i].id;
    if id == x { ChainUnique(all, Some(x), d, j); }
    if j <= d {
      if j + 1 <= d {
        AncestorParent(all, x, d, j + 1);
        var y := AncestorAt(all, x, d, j + 1);
        var r := Find(all, y);
        var k :| 0 <= k < |all| && all[k] == r;
        if LeadsTo(all, Some(id), 0, x, d) {
          var k' :| 0 <= k' < |all| && all[k'].parent == Some(id) && all[k'].id == y;
          FindUnique(all, all[k']);
          assert AncestorAt(all, x, d, j) == id;
        }
        if AncestorAt(all, x, d, j) == id {
          assert all[k].parent == Some(id) && all[k].id == y;
          assert LeadsTo(all, Some(id), 0, x, d);
        }
      } else {
        assert AncestorAt(all, x, d, j) == x;
      }
    }
  }

  /** Whatever is shown has a chain of parents to a root. */
  lemma {:induction false} ShownIsRooted<K>(all: seq<Row<K>>, parent: Option<K>, i: nat, x: K)
    requires UniqueIds(all) && Rooted(all, parent) && i <= |all|
    requires Count(BuildFrom(all, parent, i), x) > 0
    ensures Rooted(all, Some(x))
    decreases |all| - Depth(all, parent), |all| - i
  {
    if i >= |all| {
    } else {
      var rest := BuildFrom(all, parent, i + 1);
      if all[i].parent == parent {
        ChildDeeper(all, parent, all[i]);
        var below := BuildFrom(all, Some(all[i].id), 0);
        var node := Node(all[i].id, all[i].operator, all[i].conditions, below);
        CountAppend([node], rest, x);
        assert [node][1..] == [];
        if all[i].id != x {
          if Count(below, x) > 0 {
            ShownIsRooted(all, Some(all[i].id), 0, x);
          } else {
            ShownIsRooted(all, parent, i + 1, x);
          }
        }
      } else {
        ShownIsRooted(all, parent, i + 1, x);
      }
    }
  }

  /** Main result. Over any rows with unique ids, whatever their parent links, the tree can be built, and it
      shows a row exactly once if its parents lead to a root; rows on a cycle, below one, or below a
      missing parent, are not shown at all. */
  lemma EachRootedRowOnce<K>(all: seq<Row<K>>, x: K)
    requires UniqueIds(all)
    ensures Count(BuildGroupTree(all), x) == if Has(all, x) && Rooted(all, Some(x)) then 1 else 0
  {
    RootRooted(all);
    ChainUnique(all, None, 0, Depth(all, None));
    if Rooted(all, Some(x)) {
      var d: nat :| Chain(all, Some(x), d);
      RootedCount(all, None, 0, x, d);
      AncestorParent(all, x, d, 1);
      var r := Find(all, AncestorAt(all, x, d, 1));
      var k :| 0 <= k < |all| && all[k] == r;
      assert LeadsTo(all, None, 0, x, d);
    } else if Count(BuildFrom(all, None, 0), x) > 0 {
      ShownIsRooted(all, None, 0, x);
    }
  }
}
