/** The order of rules: `List`, `Reorder`, and the catch-all that `EnsureCatchAll` keeps last. */
module RuleOrder {
  import opened Wrappers
  import opened RuleTypes
  import opened Ordering
  import opened RuleStore
  import opened RuleRoundTrip

  const CATCH_ALL := "_catch_all"

  // ----- ORDER BY priority ASC, id ASC -----

  predicate Before(a: RuleRow, b: RuleRow) {
    a.priority < b.priority || (a.priority == b.priority && a.id < b.id)
  }

  function Listed(rows: seq<RuleRow>): seq<RuleRow> {
    SortBy(Before, rows)
  }

  ghost predicate Sorted(rows: seq<RuleRow>) {
    SortedBy(Before, rows)
  }

  /** `List` is the table in (priority, id) order, nothing added and nothing left out. */
  lemma ListedMeaning(rows: seq<RuleRow>)
    requires DistinctIds(rows)
    ensures Sorted(Listed(rows)) && |Listed(rows)| == |rows| && forall r :: r in Listed(rows) <==> r in rows
  {
    SortMembers(Before, rows);
    SortSorts(Before, rows);
  }

  // ----- the catch-all's priority -----

  /** COALESCE(MAX(priority), 0) over the user rules. */
  function MaxUserPriority(rows: seq<RuleRow>): Option<int> {
    if rows == [] then None
    else
      var rest := MaxUserPriority(rows[1..]);
      if rows[0].name == CATCH_ALL then rest
      else if rest.None? || rest.value < rows[0].priority then Some(rows[0].priority) else rest
  }

  function MaxPriority(rows: seq<RuleRow>): Option<int> {
    if rows == [] then None
    else
      var rest := MaxPriority(rows[1..]);
      if rest.None? || rest.value < rows[0].priority then Some(rows[0].priority) else rest
  }

  lemma {:induction false} MaxUserPriorityBounds(rows: seq<RuleRow>)
    ensures forall r <- rows ::
      r.name != CATCH_ALL ==> MaxUserPriority(rows).Some? && r.priority <= MaxUserPriority(rows).value
  {
    if rows == [] {
    } else {
      MaxUserPriorityBounds(rows[1..]);
    }
  }

  lemma {:induction false} MaxPriorityBounds(rows: seq<RuleRow>)
    ensures forall r <- rows :: MaxPriority(rows).Some? && r.priority <= MaxPriority(rows).value
  {
    if rows == [] {
    } else {
      MaxPriorityBounds(rows[1..]);
    }
  }

  function SetCatchAllPriority(rows: seq<RuleRow>, priority: int): seq<RuleRow> {
    if rows == [] then []
    else [if rows[0].name == CATCH_ALL then rows[0].(priority := priority) else rows[0]]
         + SetCatchAllPriority(rows[1..], priority)
  }

  function PutCatchAllLast(rows: seq<RuleRow>): seq<RuleRow> {
    var m := MaxUserPriority(rows);
    SetCatchAllPriority(rows, (if m.Some? then m.value else 0) + 1)
  }

  lemma {:induction false} SetCatchAllPriorityMeaning(rows: seq<RuleRow>, priority: int)
    ensures var r := SetCatchAllPriority(rows, priority);
      |r| == |rows| && forall i :: 0 <= i < |rows| ==>
        r[i] == if rows[i].name == CATCH_ALL then rows[i].(priority := priority) else rows[i]
  {
    if rows == [] {
    } else {
      SetCatchAllPriorityMeaning(rows[1..], priority);
    }
  }

  /** Every user rule sorts strictly before the catch-all. */
  ghost predicate CatchAllAfterUsers(rows: seq<RuleRow>) {
    forall r, c :: r in rows && c in rows && r.name != CATCH_ALL && c.name == CATCH_ALL ==> r.priority < c.priority
  }

  ghost predicate OneCatchAll(rows: seq<RuleRow>) {
    forall i, j :: 0 <= i < j < |rows| ==> !(rows[i].name == CATCH_ALL && rows[j].name == CATCH_ALL)
  }

  lemma PutCatchAllLastMeaning(rows: seq<RuleRow>)
    ensures CatchAllAfterUsers(PutCatchAllLast(rows))
  {
    var m := MaxUserPriority(rows);
    var p := (if m.Some? then m.value else 0) + 1;
    MaxUserPriorityBounds(rows);
    SetCatchAllPriorityMeaning(rows, p);
    var r := PutCatchAllLast(rows);
    forall i | 0 <= i < |rows| && rows[i].name != CATCH_ALL ensures r[i].priority < p {
      assert rows[i] in rows;
    }
  }

  /** With the priorities that way, an existing catch-all is the last row of the list. */
  lemma CatchAllListedLast(rows: seq<RuleRow>, c: RuleRow)
    requires DistinctIds(rows) && OneCatchAll(rows) && CatchAllAfterUsers(rows)
    requires c in rows && c.name == CATCH_ALL
    ensures var l := Listed(rows);
      && l != [] && l[|l| - 1] == c
      && forall i :: 0 <= i < |l| - 1 ==> l[i].name != CATCH_ALL
  {
    ListedMeaning(rows);
    var l := Listed(rows);
    assert c in l;
    var k :| 0 <= k < |l| && l[k] == c;
    forall i | 0 <= i < |l| && i != k ensures l[i].name != CATCH_ALL && i < k {
      SortedDistinct(l, i, k);
      assert l[i] in rows;
      OthersAreUsers(rows, l[i], c);
      BeforeMeansEarlier(l, i, k);
    }
  }

  lemma SortedDistinct(l: seq<RuleRow>, i: nat, k: nat)
    requires Sorted(l) && i < |l| && k < |l| && i != k
    ensures l[i] != l[k]
  {
    if i < k { assert Before(l[i], l[k]); } else { assert Before(l[k], l[i]); }
  }

  lemma BeforeMeansEarlier(l: seq<RuleRow>, i: nat, k: nat)
    requires Sorted(l) && i < |l| && k < |l| && Before(l[i], l[k])
    ensures i < k
  {
  }

  lemma OthersAreUsers(rows: seq<RuleRow>, x: RuleRow, c: RuleRow)
    requires OneCatchAll(rows) && x in rows && c in rows && x != c && c.name == CATCH_ALL
    ensures x.name != CATCH_ALL
  {
    var i :| 0 <= i < |rows| && rows[i] == x;
    var j :| 0 <= j < |rows| && rows[j] == c;
    assert i < j || j < i;
  }

  // ----- Reorder -----

  function SetPriority(rows: seq<RuleRow>, id: int, priority: int): seq<RuleRow> {
    if rows == [] then []
    else [if rows[0].id == id then rows[0].(priority := priority) else rows[0]] + SetPriority(rows[1..], id, priority)
  }

  function SetPriorities(rows: seq<RuleRow>, ids: seq<int>, next: int): seq<RuleRow>
    decreases |ids|
  {
    if ids == [] then rows
    else if ids[0] <= 0 then SetPriorities(rows, ids[1..], next)
    else SetPriorities(SetPriority(rows, ids[0], next), ids[1..], next + 1)
  }

  function Reorder(rows: seq<RuleRow>, ids: seq<int>): seq<RuleRow> {
    PutCatchAllLast(SetPriorities(rows, ids, 0))
  }

  lemma {:induction false} SetPriorityMeaning(rows: seq<RuleRow>, id: int, priority: int)
    ensures var r := SetPriority(rows, id, priority);
      |r| == |rows| && forall i ::
        0 <= i < |rows| ==> r[i] == if rows[i].id == id then rows[i].(priority := priority) else rows[i]
  {
    if rows == [] {
    } else {
      SetPriorityMeaning(rows[1..], id, priority);
    }
  }

  /** How many positive ids stand before the first occurrence of this one. */
  function Rank(ids: seq<int>, id: int): nat {
    if ids == [] || ids[0] == id then 0
    else (if ids[0] > 0 then 1 else 0) + Rank(ids[1..], id)
  }

  ghost predicate NoRepeat(ids: seq<int>) {
    forall i, j :: 0 <= i < j < |ids| && ids[i] > 0 ==> ids[i] != ids[j]
  }

  lemma NoRepeatHead(ids: seq<int>)
    requires NoRepeat(ids) && ids != [] && ids[0] > 0
    ensures ids[0] !in ids[1..]
  {
    forall j | 0 <= j < |ids[1..]| ensures ids[1..][j] != ids[0] {
      assert ids[1..][j] == ids[j + 1];
    }
  }

  /** Rows change nothing but their priority, and a named one gets its place in the list. */
  lemma {:induction false} SetPrioritiesMeaning(rows: seq<RuleRow>, ids: seq<int>, next: int)
    requires NoRepeat(ids)
    ensures var r := SetPriorities(rows, ids, next);
      |r| == |rows| && forall i :: 0 <= i < |rows| ==>
        r[i] == if rows[i].id > 0 && rows[i].id in ids then rows[i].(priority := next + Rank(ids, rows[i].id))
          else rows[i]
    decreases |ids|
  {
    if ids == [] {
    } else {
      if ids[0] > 0 { NoRepeatHead(ids); }
      var rows1 := if ids[0] <= 0 then rows else SetPriority(rows, ids[0], next);
      if ids[0] > 0 { SetPriorityMeaning(rows, ids[0], next); }
      SetPrioritiesMeaning(rows1, ids[1..], if ids[0] <= 0 then next else next + 1);
      var r := SetPriorities(rows, ids, next);
      forall i | 0 <= i < |rows|
        ensures r[i] == if rows[i].id > 0 && rows[i].id in ids then rows[i].(priority := next + Rank(ids, rows[i].id))
            else rows[i]
      {
        var id := rows[i].id;
        assert id in ids <==> id == ids[0] || id in ids[1..];
      }
    }
  }

  /** The last place of this id in the list. */
  predicate LastPlace(ids: seq<int>, id: int, k: nat) {
    k < |ids| && ids[k] == id && forall j :: k < j < |ids| ==> ids[j] != id
  }

  function Positives(ids: seq<int>): nat {
    if ids == [] then 0 else (if ids[0] > 0 then 1 else 0) + Positives(ids[1..])
  }

  lemma {:induction false} SetPrioritiesLast(rows: seq<RuleRow>, ids: seq<int>, next: int, i: nat)
    requires i < |rows|
    ensures var r := SetPriorities(rows, ids, next);
      && |r| == |rows| && (rows[i].id <= 0 || rows[i].id !in ids ==> r[i] == rows[i])
      && forall k: nat :: rows[i].id > 0 && LastPlace(ids, rows[i].id, k) ==>
           r[i] == rows[i].(priority := next + Positives(ids[..k]))
    decreases |ids|
  {
    if ids == [] {
    } else {
      var id, rest := rows[i].id, ids[1..];
      var rows1 := if ids[0] <= 0 then rows else SetPriority(rows, ids[0], next);
      if ids[0] > 0 { SetPriorityMeaning(rows, ids[0], next); }
      SetPrioritiesLast(rows1, rest, if ids[0] <= 0 then next else next + 1, i);
      hide SetPriority;
      assert forall j :: 0 < j < |ids| ==> ids[j] == rest[j - 1];
      forall k: nat | id > 0 && LastPlace(ids, id, k)
        ensures SetPriorities(rows, ids, next)[i] == rows[i].(priority := next + Positives(ids[..k]))
      {
        if k == 0 {
          assert id !in rest;
        } else {
          assert LastPlace(rest, id, k - 1);
          assert ids[..k][1..] == rest[..k - 1];
        }
      }
    }
  }

  /** Main result. Any list of ids at all, with repetitions and ids of no rule: a user rule that is named gets the
      number of positive ids before its last place, one that is not keeps its priority, and nothing else changes but the
      catch-all's priority, which goes above them. */
  lemma ReorderSets(rows: seq<RuleRow>, ids: seq<int>, i: nat)
    requires i < |rows|
    ensures var u := Reorder(rows, ids);
      && |u| == |rows| && u[i] == rows[i].(priority := u[i].priority) && CatchAllAfterUsers(u)
      && (rows[i].name != CATCH_ALL && (rows[i].id <= 0 || rows[i].id !in ids) ==> u[i] == rows[i])
      && forall k: nat :: rows[i].name != CATCH_ALL && rows[i].id > 0 && LastPlace(ids, rows[i].id, k) ==>
           u[i].priority == Positives(ids[..k])
  {
    var r := SetPriorities(rows, ids, 0);
    SetPrioritiesLast(rows, ids, 0, i);
    PutCatchAllLastMeaning(r);
    var m := MaxUserPriority(r);
    SetCatchAllPriorityMeaning(r, (if m.Some? then m.value else 0) + 1);
    hide SetPriorities, MaxUserPriority, SetCatchAllPriority, CatchAllAfterUsers, LastPlace, Positives;
    if rows[i].id > 0 && rows[i].id in ids { var k := LastOf(ids, rows[i].id); }
  }

  lemma {:induction false} LastOf(ids: seq<int>, id: int) returns (k: nat)
    requires id in ids
    ensures LastPlace(ids, id, k)
    decreases |ids|
  {
    k := |ids| - 1;
    if ids[k] != id {
      assert ids == ids[..k] + [ids[k]];
      k := LastOf(ids[..k], id);
    }
  }

  /** The rows after `Reorder`: only priorities change, a user rule's is its rank, and the catch-all's is above. */
  ghost predicate Reordered(rows: seq<RuleRow>, u: seq<RuleRow>, ids: seq<int>) {
    && |u| == |rows|
    && (forall i :: 0 <= i < |rows| ==> u[i] == rows[i].(priority := u[i].priority))
    && (forall i :: 0 <= i < |rows| && u[i].name != CATCH_ALL ==> u[i].priority == Rank(ids, u[i].id))
    && CatchAllAfterUsers(u)
  }

  lemma ReorderRows(rows: seq<RuleRow>, ids: seq<int>)
    requires NoRepeat(ids)
    requires forall r <- rows :: r.id > 0
    requires forall r <- rows :: r.name != CATCH_ALL ==> r.id in ids
    ensures Reordered(rows, Reorder(rows, ids), ids)
  {
    var r := SetPriorities(rows, ids, 0);
    SetPrioritiesMeaning(rows, ids, 0);
    PutCatchAllLastMeaning(r);
    var m := MaxUserPriority(r);
    SetCatchAllPriorityMeaning(r, (if m.Some? then m.value else 0) + 1);
    hide SetPriorities, MaxUserPriority, SetCatchAllPriority, CatchAllAfterUsers, NoRepeat, Rank;
    forall i | 0 <= i < |rows| ensures rows[i].id > 0 && (rows[i].name != CATCH_ALL ==> rows[i].id in ids) {
      assert rows[i] in rows;
    }
  }

  /** Tables with the same ids and names have the same keys. */
  lemma SameKeys(rows: seq<RuleRow>, u: seq<RuleRow>)
    requires DistinctIds(rows) && OneCatchAll(rows)
    requires |u| == |rows| && forall i :: 0 <= i < |rows| ==> u[i].id == rows[i].id && u[i].name == rows[i].name
    ensures DistinctIds(u) && OneCatchAll(u)
  {
  }

  lemma ReorderedKeys(rows: seq<RuleRow>, u: seq<RuleRow>, ids: seq<int>)
    requires Reordered(rows, u, ids) && DistinctIds(rows) && OneCatchAll(rows)
    ensures DistinctIds(u) && OneCatchAll(u)
  {
    hide Rank, CatchAllAfterUsers, DistinctIds, OneCatchAll;
    SameKeys(rows, u);
  }

  lemma ReorderedInOrder(rows: seq<RuleRow>, u: seq<RuleRow>, ids: seq<int>, a: RuleRow, b: RuleRow)
    requires Reordered(rows, u, ids)
    requires forall r <- rows :: r.id > 0
    requires forall r <- rows :: r.name != CATCH_ALL ==> r.id in ids
    requires a in u && b in u && a.name != CATCH_ALL && b.name != CATCH_ALL && Before(a, b)
    ensures Rank(ids, a.id) < Rank(ids, b.id)
  {
    hide CatchAllAfterUsers;
    var i :| 0 <= i < |u| && u[i] == a;
    var j :| 0 <= j < |u| && u[j] == b;
    assert rows[i] in rows && rows[j] in rows;
    if a.priority == b.priority { RankInjective(ids, a.id, b.id); }
  }

  /** Main result. `List` after `Reorder` puts an existing catch-all last and, when the ids name every user
      rule and none twice, the user rules in the order of the ids; no other field of any rule changes. */
  lemma ReorderMeaning(rows: seq<RuleRow>, ids: seq<int>)
    requires DistinctIds(rows) && OneCatchAll(rows) && NoRepeat(ids)
    requires forall r <- rows :: r.id > 0
    requires forall r <- rows :: r.name != CATCH_ALL ==> r.id in ids
    ensures var u := Reorder(rows, ids); var l := Listed(u);
      && |u| == |rows|
      && (forall i :: 0 <= i < |rows| ==> u[i] == rows[i].(priority := u[i].priority))
      && (forall i, j :: 0 <= i < j < |l| && l[i].name != CATCH_ALL && l[j].name != CATCH_ALL
                         ==> Rank(ids, l[i].id) < Rank(ids, l[j].id))
      && (forall c <- u :: c.name == CATCH_ALL ==> l != [] && l[|l| - 1] == c)
  {
    hide Reorder, Listed, Rank, NoRepeat, Before;
    ReorderRows(rows, ids);
    var u := Reorder(rows, ids);
    ReorderedKeys(rows, u, ids);
    ListedMeaning(u);
    var l := Listed(u);
    assert |u| == |rows| && CatchAllAfterUsers(u);
    forall i, j | 0 <= i < j < |l| && l[i].name != CATCH_ALL && l[j].name != CATCH_ALL
      ensures Rank(ids, l[i].id) < Rank(ids, l[j].id)
    {
      hide Reordered, DistinctIds, OneCatchAll, CatchAllAfterUsers;
      assert l[i] in l && l[j] in l;
      ReorderedInOrder(rows, u, ids, l[i], l[j]);
    }
    forall c | c in u && c.name == CATCH_ALL ensures l != [] && l[|l| - 1] == c {
      hide Reordered, DistinctIds, OneCatchAll, CatchAllAfterUsers, Sorted;
      CatchAllListedLast(u, c);
    }
  }

  lemma {:induction false} RankInjective(ids: seq<int>, a: int, b: int)
    requires a in ids && b in ids && a > 0 && b > 0 && Rank(ids, a) == Rank(ids, b)
    ensures a == b
  {
    if ids[0] != a && ids[0] != b { RankInjective(ids[1..], a, b); }
  }

  // ----- EnsureCatchAll -----

  function CatchAllId(rows: seq<RuleRow>): Option<int> {
    if rows == [] then None else if rows[0].name == CATCH_ALL then Some(rows[0].id) else CatchAllId(rows[1..])
  }

  function HasMove(actions: seq<ActionRow>, ruleId: int): bool {
    exists a <- actions :: a.ruleId == ruleId && a.action.kind == "move_to_folder"
  }

  const TO_INBOX := Action("move_to_folder", "INBOX")

  function AddAction(t: Tables, ruleId: int, action: Action): Tables {
    t.(actions := t.actions + [ActionRow(t.nextAction, ruleId, action)], nextAction := t.nextAction + 1)
  }

  function EnsureCatchAll(t: Tables, cascade: bool): Tables {
    match CatchAllId(t.rules)
    case Some(id) =>
      var t1 := t.(groups := DropGroups(t.groups, id),
                   conditions := if cascade then DropConditions(t.conditions, GroupIdsOf(t.groups, id))
                     else t.conditions);
      var t2 := if HasMove(t1.actions, id) then t1 else AddAction(t1, id, TO_INBOX);
      t2.(rules := PutCatchAllLast(t2.rules))
    case None =>
      var m := MaxPriority(t.rules);
      var pri := if m.Some? then m.value + 1 else 999;
      var row := RuleRow(t.nextRule, CATCH_ALL, "Built-in catch-all — moves unmatched mail to Inbox", pri, true,
                         "", "", "");
      AddAction(t.(rules := t.rules + [row], nextRule := t.nextRule + 1), t.nextRule, TO_INBOX)
  }

  lemma {:induction false} CatchAllIdMeaning(rows: seq<RuleRow>)
    ensures CatchAllId(rows).None? ==> forall r <- rows :: r.name != CATCH_ALL
    ensures CatchAllId(rows).Some? ==> exists r <- rows :: r.name == CATCH_ALL && r.id == CatchAllId(rows).value
  {
    if rows == [] {
    } else {
      CatchAllIdMeaning(rows[1..]);
    }
  }

  /** The state `EnsureCatchAll` leaves behind. */
  ghost predicate CatchAllInPlace(t: Tables, c: RuleRow) {
    && c in t.rules && c.name == CATCH_ALL
    && DistinctIds(t.rules) && OneCatchAll(t.rules) && CatchAllAfterUsers(t.rules)
    && GroupsOf(t.groups, c.id) == []
    && HasMove(t.actions, c.id)
  }

  lemma PutLastKeeps(rows: seq<RuleRow>)
    ensures var u := PutCatchAllLast(rows);
      |u| == |rows| && forall i :: 0 <= i < |rows| ==> u[i] == rows[i].(priority := u[i].priority)
                                                        && (rows[i].name != CATCH_ALL ==> u[i] == rows[i])
  {
    var m := MaxUserPriority(rows);
    SetCatchAllPriorityMeaning(rows, (if m.Some? then m.value else 0) + 1);
  }

  lemma EnsureExistingRules(rows: seq<RuleRow>, id: int) returns (k: nat)
    requires DistinctIds(rows) && OneCatchAll(rows) && CatchAllId(rows) == Some(id)
    ensures var u := PutCatchAllLast(rows);
      && k < |u| == |rows| && u[k].name == CATCH_ALL && u[k].id == id
      && DistinctIds(u) && OneCatchAll(u) && CatchAllAfterUsers(u)
  {
    hide PutCatchAllLast, CatchAllAfterUsers, DistinctIds, OneCatchAll, CatchAllId;
    PutCatchAllLastMeaning(rows);
    CatchAllIdMeaning(rows);
    PutLastKeeps(rows);
    SameKeys(rows, PutCatchAllLast(rows));
    var r :| r in rows && r.name == CATCH_ALL && r.id == id;
    k :| 0 <= k < |rows| && rows[k] == r;
  }

  lemma AddedMove(t: Tables, id: int)
    ensures HasMove((if HasMove(t.actions, id) then t else AddAction(t, id, TO_INBOX)).actions, id)
  {
    var u := AddAction(t, id, TO_INBOX);
    var a := u.actions[|t.actions|];
    assert a in u.actions && a.ruleId == id && a.action.kind == "move_to_folder";
  }

  lemma WellKeptKeys(t: Tables)
    requires WellKept(t)
    ensures DistinctIds(t.rules)
  {
  }

  lemma EnsureExisting(t: Tables, cascade: bool, id: int)
    requires WellKept(t) && OneCatchAll(t.rules) && CatchAllId(t.rules) == Some(id)
    ensures exists c :: CatchAllInPlace(EnsureCatchAll(t, cascade), c)
  {
    WellKeptKeys(t);
    hide WellKept, PutCatchAllLast, CatchAllId, DropGroups, DropConditions, GroupIdsOf, HasMove, DistinctIds,
         OneCatchAll, CatchAllAfterUsers;
    var u := EnsureCatchAll(t, cascade);
    DropGroupsRead(t.groups, id, id);
    var k := EnsureExistingRules(t.rules, id);
    AddedMove(t.(groups := u.groups, conditions := u.conditions), id);
    assert CatchAllInPlace(u, u.rules[k]);
  }

  lemma AppendedCatchAll(rows: seq<RuleRow>, row: RuleRow)
    requires DistinctIds(rows) && row.name == CATCH_ALL
    requires forall r <- rows :: r.name != CATCH_ALL && r.id < row.id && r.priority < row.priority
    ensures DistinctIds(rows + [row]) && OneCatchAll(rows + [row]) && CatchAllAfterUsers(rows + [row])
  {
    forall i | 0 <= i < |rows| ensures rows[i].name != CATCH_ALL && rows[i].id < row.id {
      assert rows[i] in rows;
    }
  }

  lemma NewIdIsLargest(t: Tables)
    requires WellKept(t)
    ensures DistinctIds(t.rules) && forall r <- t.rules :: r.id < t.nextRule
  {
  }

  lemma EnsureNew(t: Tables, cascade: bool)
    requires WellKept(t) && CatchAllId(t.rules) == None
    ensures exists c :: CatchAllInPlace(EnsureCatchAll(t, cascade), c)
  {
    hide WellKept, CatchAllId, MaxPriority, GroupsOf, ActionsOf, DistinctIds, OneCatchAll, CatchAllAfterUsers;
    var u := EnsureCatchAll(t, cascade);
    CatchAllIdMeaning(t.rules);
    MaxPriorityBounds(t.rules);
    NewIdIsLargest(t);
    FreshRuleHasNothing(t, t.nextRule);
    var c := u.rules[|t.rules|];
    AppendedCatchAll(t.rules, c);
    var a := u.actions[|t.actions|];
    assert a in u.actions && a.ruleId == c.id;
    assert CatchAllInPlace(u, c);
  }

  /** Main result. After `EnsureCatchAll` there is one catch-all; it has no conditions, it moves somewhere, and
      `List` puts it last. */
  lemma EnsureCatchAllMeaning(t: Tables, cascade: bool)
    requires WellKept(t) && OneCatchAll(t.rules)
    ensures exists c :: CatchAllInPlace(EnsureCatchAll(t, cascade), c)
                     && Listed(EnsureCatchAll(t, cascade).rules) != []
                     && Listed(EnsureCatchAll(t, cascade).rules)[|Listed(EnsureCatchAll(t, cascade).rules)| - 1] == c
  {
    var u := EnsureCatchAll(t, cascade);
    if CatchAllId(t.rules).Some? {
      EnsureExisting(t, cascade, CatchAllId(t.rules).value);
    } else {
      EnsureNew(t, cascade);
    }
    var c :| CatchAllInPlace(u, c);
    CatchAllListedLast(u.rules, c);
    hide EnsureCatchAll;
  }
}
