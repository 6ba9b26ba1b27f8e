/** What the order of rules means for `Match`: the catch-all gets only the mail no user rule wants. */
module CatchAllProofs {
  import opened Wrappers
  import opened RuleTypes
  import opened Schedule
  import opened Engine
  import opened EngineProofs
  import opened RuleStore
  import opened RuleRoundTrip
  import opened RuleOrder

  function ReadRule(t: Tables, row: RuleRow): Rule
    requires WellKept(t)
  {
    Rule(row.id, row.name, row.description, row.priority, row.enabled, row.days, row.start, row.end,
         LoadGroups(t, row.id), ActionsOf(t.actions, row.id))
  }

  /** `List`: rules in order, each with its groups and actions. */
  function ListRules(t: Tables): (rules: seq<Rule>)
    requires WellKept(t)
    ensures |rules| == |Listed(t.rules)|
  {
    var rows := Listed(t.rules);
    seq(|rows|, i requires 0 <= i < |rows| => ReadRule(t, rows[i]))
  }

  /** The order that `EnsureCatchAll` and `Reorder` leave behind. */
  ghost predicate Ordered(t: Tables) {
    WellKept(t) && OneCatchAll(t.rules) && CatchAllAfterUsers(t.rules)
  }

  /** `Reorder` leaves that order behind, whatever ids it is given. */
  lemma ReorderOrders(t: Tables, ids: seq<int>)
    requires WellKept(t) && OneCatchAll(t.rules)
    ensures Ordered(t.(rules := Reorder(t.rules, ids)))
  {
    var r := SetPriorities(t.rules, ids, 0);
    SetPrioritiesKeys(t.rules, ids, 0);
    PutCatchAllLastMeaning(r);
    var m := MaxUserPriority(r);
    SetCatchAllPriorityMeaning(r, (if m.Some? then m.value else 0) + 1);
    hide SetPriorities, MaxUserPriority, SetCatchAllPriority, CatchAllAfterUsers;
    var u := Reorder(t.rules, ids);
    assert forall i :: 0 <= i < |u| ==> u[i].id == t.rules[i].id && u[i].name == t.rules[i].name;
    UpdatedRowsKept(t, t.(rules := u));
    hide WellKept;
  }

  lemma {:induction false} SetPrioritiesKeys(rows: seq<RuleRow>, ids: seq<int>, next: int)
    ensures var r := SetPriorities(rows, ids, next);
      |r| == |rows| && forall i :: 0 <= i < |rows| ==> r[i].id == rows[i].id && r[i].name == rows[i].name
    decreases |ids|
  {
    if ids == [] {
    } else {
      if ids[0] > 0 {
        SetPriorityMeaning(rows, ids[0], next);
        SetPrioritiesKeys(SetPriority(rows, ids[0], next), ids[1..], next + 1);
      } else {
        SetPrioritiesKeys(rows, ids[1..], next);
      }
    }
  }

  /** The list ends with the catch-all, if there is one. */
  lemma CatchAllIsLastRule(t: Tables, i: nat)
    requires Ordered(t) && i < |ListRules(t)| && ListRules(t)[i].name == CATCH_ALL
    ensures i == |ListRules(t)| - 1
    ensures forall j :: 0 <= j < i ==> ListRules(t)[j].name != CATCH_ALL
  {
    var rows := Listed(t.rules);
    WellKeptKeys(t);
    ListedMeaning(t.rules);
    hide WellKept, Listed, LoadGroups;
    assert rows[i] in rows;
    CatchAllListedLast(t.rules, rows[i]);
  }

  /** Main result. In that order, `Match` takes the catch-all only when every user rule lets the message pass:
      it is off, out of schedule, or its conditions fail. */
  lemma CatchAllTakesTheRest(env: Env, msg: Message, t: Tables)
    requires Ordered(t)
    ensures var m := MatchRules(env, msg, ListRules(t), NEW_EXTRAS).0;
      m.Matched? && m.rule.name == CATCH_ALL ==> forall r <- ListRules(t) :: r.name != CATCH_ALL ==> Passes(env, msg, r)
  {
    hide FreshMatch, MatchRules, ListRules, FreshRule, WellKept, OneCatchAll, CatchAllAfterUsers;
    var rules := ListRules(t);
    MemoIsInvisible(env, msg, rules);
    MatchMeaning(env, msg, rules);
    var m := FreshMatch(env, msg, rules);
    if m.Matched? && m.rule.name == CATCH_ALL {
      hide Passes;
      var i: nat :| AnsweredBy(env, msg, rules, i, m);
      CatchAllIsLastRule(t, i);
    }
  }

  // ----- after EnsureCatchAll -----

  lemma NewCatchAllKept(t: Tables, row: RuleRow, action: Action)
    requires WellKept(t) && row.id == t.nextRule
    ensures WellKept(AddAction(t.(rules := t.rules + [row], nextRule := row.id + 1), row.id, action))
  {
    RuleRowKept(t, row);
    var t1 := t.(rules := t.rules + [row], nextRule := row.id + 1);
    ActionKept(t1, ActionRow(t1.nextAction, row.id, action));
    hide WellKept;
  }

  lemma EnsureKeepsTables(t: Tables, cascade: bool)
    requires WellKept(t)
    ensures WellKept(EnsureCatchAll(t, cascade))
  {
    match CatchAllId(t.rules)
    case None =>
      hide WellKept, CatchAllId, MaxPriority;
      var row := EnsureCatchAll(t, cascade).rules[|t.rules|];
      NewCatchAllKept(t, row, TO_INBOX);
    case Some(id) =>
      CatchAllIdMeaning(t.rules);
      ExistingKept(t, cascade, id);
  }

  lemma ExistingKept(t: Tables, cascade: bool, id: int)
    requires WellKept(t) && CatchAllId(t.rules) == Some(id) && id < t.nextRule
    ensures WellKept(EnsureCatchAll(t, cascade))
  {
    hide WellKept, CatchAllId, DropGroups, DropConditions, GroupIdsOf, HasMove, PutCatchAllLast;
    FewerGroups(t, id);
    var t0 := t.(groups := DropGroups(t.groups, id));
    FewerConditions(t0, GroupIdsOf(t.groups, id));
    var t1 := if cascade then t0.(conditions := DropConditions(t.conditions, GroupIdsOf(t.groups, id))) else t0;
    ActionKept(t1, ActionRow(t1.nextAction, id, TO_INBOX));
    var t2 := if HasMove(t1.actions, id) then t1 else AddAction(t1, id, TO_INBOX);
    PutLastKeeps(t2.rules);
    UpdatedRowsKept(t2, t2.(rules := PutCatchAllLast(t2.rules)));
  }

  /** `EnsureCatchAll` leaves every user rule as it was. */
  lemma EnsureSparesUsers(t: Tables, cascade: bool, row: RuleRow)
    requires WellKept(t) && row in t.rules && row.name != CATCH_ALL
    ensures WellKept(EnsureCatchAll(t, cascade)) && row in EnsureCatchAll(t, cascade).rules
    ensures ReadRule(EnsureCatchAll(t, cascade), row) == ReadRule(t, row)
  {
    EnsureKeepsTables(t, cascade);
    EnsureReads(t, cascade, row);
    SameRuleLoadsSame(t, EnsureCatchAll(t, cascade), row.id);
    hide WellKept, EnsureCatchAll, LoadTree;
  }

  lemma EnsureReads(t: Tables, cascade: bool, row: RuleRow)
    requires WellKept(t) && row in t.rules && row.name != CATCH_ALL
    ensures SameRule(t, EnsureCatchAll(t, cascade), row.id) && row in EnsureCatchAll(t, cascade).rules
  {
    CatchAllIdMeaning(t.rules);
    if CatchAllId(t.rules).None? {
      NewReads(t, cascade, row);
    } else {
      ExistingReads(t, cascade, row, CatchAllId(t.rules).value);
    }
  }

  lemma NewReads(t: Tables, cascade: bool, row: RuleRow)
    requires WellKept(t) && row in t.rules && CatchAllId(t.rules) == None
    ensures SameRule(t, EnsureCatchAll(t, cascade), row.id) && row in EnsureCatchAll(t, cascade).rules
  {
    assert row.id != t.nextRule;
    hide WellKept, CatchAllId, MaxPriority, ActionsOf, GroupsOf, ConditionsOf;
    ActionsOfAppend(t.actions, ActionRow(t.nextAction, t.nextRule, TO_INBOX), row.id);
  }

  lemma ExistingReads(t: Tables, cascade: bool, row: RuleRow, id: int)
    requires WellKept(t) && row in t.rules && row.name != CATCH_ALL && CatchAllId(t.rules) == Some(id)
    ensures SameRule(t, EnsureCatchAll(t, cascade), row.id) && row in EnsureCatchAll(t, cascade).rules
  {
    CatchAllIdMeaning(t.rules);
    OtherNamesOtherIds(t, row, id);
    ClearedRead(t, id, cascade, row.id);
    var k :| 0 <= k < |t.rules| && t.rules[k] == row;
    hide WellKept, CatchAllId, DropGroups, DropConditions, DropActions, GroupIdsOf, PutCatchAllLast, SameRule, HasMove;
    var u := Cleared(t, id, cascade);
    var t1 := t.(groups := u.groups, conditions := u.conditions);
    SameGroupsSameRule(t, u, t1, row.id);
    var t2 := if HasMove(t1.actions, id) then t1 else AddAction(t1, id, TO_INBOX);
    AddedElsewhere(t, t1, id, row.id);
    PutLastKeeps(t.rules);
    assert PutCatchAllLast(t.rules)[k] == row;
    OtherRowsSameRule(t, t2, PutCatchAllLast(t2.rules), row.id);
  }

  lemma SameGroupsSameRule(t: Tables, u: Tables, v: Tables, id: int)
    requires SameRule(t, u, id) && v == t.(groups := u.groups, conditions := u.conditions)
    ensures SameRule(t, v, id)
  {
    hide GroupsOf, ConditionsOf, ActionsOf;
  }

  lemma AddedElsewhere(t: Tables, u: Tables, id: int, other: int)
    requires SameRule(t, u, other) && other != id
    ensures SameRule(t, AddAction(u, id, TO_INBOX), other)
  {
    hide GroupsOf, ConditionsOf, ActionsOf;
    ActionsOfAppend(u.actions, ActionRow(u.nextAction, id, TO_INBOX), other);
  }

  lemma OtherRowsSameRule(t: Tables, u: Tables, rows: seq<RuleRow>, id: int)
    requires SameRule(t, u, id)
    ensures SameRule(t, u.(rules := rows), id)
  {
    hide GroupsOf, ConditionsOf, ActionsOf;
  }

  lemma OtherNamesOtherIds(t: Tables, row: RuleRow, id: int)
    requires WellKept(t) && row in t.rules && row.name != CATCH_ALL
    requires exists c <- t.rules :: c.name == CATCH_ALL && c.id == id
    ensures row.id != id
  {
    var c :| c in t.rules && c.name == CATCH_ALL && c.id == id;
    var i :| 0 <= i < |t.rules| && t.rules[i] == row;
    var j :| 0 <= j < |t.rules| && t.rules[j] == c;
    assert i < j || j < i;
  }

  lemma EnsureOrders(t: Tables, cascade: bool)
    requires WellKept(t) && OneCatchAll(t.rules)
    ensures Ordered(EnsureCatchAll(t, cascade))
    ensures exists c :: CatchAllInPlace(EnsureCatchAll(t, cascade), c)
  {
    EnsureKeepsTables(t, cascade);
    EnsureCatchAllMeaning(t, cascade);
    hide EnsureCatchAll, WellKept;
  }

  /** A rule without groups holds for every message. */
  lemma NoGroupsHold(env: Env, msg: Message, rule: Rule)
    requires rule.groups == []
    ensures FreshRule(env, msg, rule).result == Ok(true)
  {
    NoRoots(env, msg);
  }

  lemma NoRowsNoGroups(t: Tables, id: int)
    requires WellKept(t) && GroupsOf(t.groups, id) == []
    ensures LoadGroups(t, id) == []
  {
  }

  lemma CatchAllStops(env: Env, msg: Message, t: Tables, c: RuleRow)
    requires WellKept(t) && CatchAllInPlace(t, c)
    requires c.enabled && c.days == "" && c.start == "" && c.end == ""
    ensures exists r <- ListRules(t) :: !Passes(env, msg, r)
  {
    ListedMeaning(t.rules);
    NoRowsNoGroups(t, c.id);
    hide WellKept, Listed, LoadGroups;
    var rows := Listed(t.rules);
    assert c in rows;
    var i :| 0 <= i < |rows| && rows[i] == c;
    var r := ListRules(t)[i];
    NoGroupsHold(env, msg, r);
    hide FreshRule;
    NoScheduleMeaning(r, env.now);
    assert r in ListRules(t) && !Passes(env, msg, r);
  }

  /** Main result. After `EnsureCatchAll`, while the catch-all is enabled and has no schedule, every message
      gets an answer: a rule, or the error of one. */
  lemma EveryMessageIsAnswered(env: Env, msg: Message, t: Tables, cascade: bool)
    requires WellKept(t) && OneCatchAll(t.rules)
    requires forall c <- EnsureCatchAll(t, cascade).rules ::
      c.name == CATCH_ALL ==> c.enabled && c.days == "" && c.start == "" && c.end == ""
    ensures Ordered(EnsureCatchAll(t, cascade))
    ensures var rules := ListRules(EnsureCatchAll(t, cascade)); var m := MatchRules(env, msg, rules, NEW_EXTRAS).0;
      && !m.NoMatch?
      && ((forall r <- rules :: FreshRule(env, msg, r).result.Ok?) ==> m.Matched?)
  {
    EnsureOrders(t, cascade);
    var u := EnsureCatchAll(t, cascade);
    hide EnsureCatchAll, WellKept, ListRules;
    var c :| CatchAllInPlace(u, c);
    CatchAllStops(env, msg, u, c);
    var rules := ListRules(u);
    MemoIsInvisible(env, msg, rules);
    MatchMeaning(env, msg, rules);
    hide MatchRules, FreshMatch, FreshRule, Passes;
    var m := FreshMatch(env, msg, rules);
    var i: nat :| AnsweredBy(env, msg, rules, i, m);
    assert rules[i] in rules;
  }

  // ----- what the catch-all is -----

  lemma NoCatchAllYet(t: Tables)
    requires forall r <- t.rules :: r.name != "_catch_all"
    ensures CatchAllId(t.rules) == None && OneCatchAll(t.rules)
  {
    CatchAllIdMeaning(t.rules);
    assert forall i :: 0 <= i < |t.rules| ==> t.rules[i] in t.rules;
  }

  lemma NewRows(t: Tables, cascade: bool)
    requires CatchAllId(t.rules) == None
    ensures var u, n := EnsureCatchAll(t, cascade), |t.rules|;
      && |u.rules| == n + 1 && u.rules[..n] == t.rules
      && u.rules[n] == RuleRow(t.nextRule, "_catch_all", "Built-in catch-all — moves unmatched mail to Inbox",
                               u.rules[n].priority, true, "", "", "")
      && (forall r <- t.rules :: r.priority < u.rules[n].priority) && (t.rules == [] ==> u.rules[n].priority == 999)
      && u.groups == t.groups
      && u.actions == t.actions + [ActionRow(t.nextAction, t.nextRule, Action("move_to_folder", "INBOX"))]
  {
    hide CatchAllId;
    MaxPriorityBounds(t.rules);
  }

  /** Main result. With no catch-all before, there is one more rule, behind all others: enabled, without schedule and
      groups, and with one action, the move to INBOX. */
  lemma NewCatchAll(t: Tables, cascade: bool)
    requires WellKept(t) && forall r <- t.rules :: r.name != "_catch_all"
    ensures WellKept(EnsureCatchAll(t, cascade))
    ensures var u, n := EnsureCatchAll(t, cascade), |t.rules|;
      && |u.rules| == n + 1 && u.rules[..n] == t.rules
      && ReadRule(u, u.rules[n]) ==
           Rule(u.rules[n].id, "_catch_all", "Built-in catch-all — moves unmatched mail to Inbox", u.rules[n].priority,
                true, "", "", "", [], [Action("move_to_folder", "INBOX")])
      && (forall r <- t.rules :: r.priority < u.rules[n].priority) && (t.rules == [] ==> u.rules[n].priority == 999)
  {
    hide WellKept, CatchAllId, GroupsOf, ActionsOf, LoadGroups, EnsureCatchAll;
    NoCatchAllYet(t);
    EnsureKeepsTables(t, cascade);
    NewRows(t, cascade);
    FreshRuleHasNothing(t, t.nextRule);
    ActionsOfAppend(t.actions, ActionRow(t.nextAction, t.nextRule, TO_INBOX), t.nextRule);
    NoRowsNoGroups(EnsureCatchAll(t, cascade), t.nextRule);
  }

  lemma {:induction false} HasMoveMeaning(actions: seq<ActionRow>, id: int)
    ensures HasMove(actions, id) <==> exists a <- ActionsOf(actions, id) :: a.kind == "move_to_folder"
    decreases |actions|
  {
    if actions == [] {
    } else {
      HasMoveMeaning(actions[1..], id);
      assert actions == [actions[0]] + actions[1..];
      var here := if actions[0].ruleId == id then [actions[0].action] else [];
      assert ActionsOf(actions, id) == here + ActionsOf(actions[1..], id);
      assert forall a :: a in ActionsOf(actions, id) <==> a in here || a in ActionsOf(actions[1..], id);
    }
  }

  /** Main result. With a catch-all before, its name, enabled flag and schedule stand, its groups go, and its actions
      stand, with the move to INBOX behind them if there was no move. */
  lemma KeptCatchAll(t: Tables, cascade: bool, before: RuleRow) returns (after: RuleRow)
    requires WellKept(t) && OneCatchAll(t.rules) && before in t.rules && before.name == "_catch_all"
    ensures WellKept(EnsureCatchAll(t, cascade))
    ensures var u := EnsureCatchAll(t, cascade); var was, now := ReadRule(t, before), ReadRule(u, after);
      && after in u.rules && |u.rules| == |t.rules|
      && now == was.(priority := now.priority, groups := [],
                     actions := if exists a <- was.actions :: a.kind == "move_to_folder" then was.actions
                                else was.actions + [Action("move_to_folder", "INBOX")])
  {
    EnsureKeepsTables(t, cascade);
    CatchAllIdMeaning(t.rules);
    var id := before.id;
    SameCatchAll(t, before);
    var u := EnsureCatchAll(t, cascade);
    PutLastKeeps(t.rules);
    var k :| 0 <= k < |t.rules| && t.rules[k] == before;
    after := u.rules[k];
    DropGroupsRead(t.groups, id, id);
    HasMoveMeaning(t.actions, id);
    ActionsOfAppend(t.actions, ActionRow(t.nextAction, id, TO_INBOX), id);
    NoRowsNoGroups(u, id);
    hide WellKept, CatchAllId, GroupsOf, ActionsOf, LoadGroups, PutCatchAllLast, HasMove, DropGroups, DropConditions;
  }

  lemma SameCatchAll(t: Tables, row: RuleRow)
    requires OneCatchAll(t.rules) && row in t.rules && row.name == "_catch_all"
    ensures CatchAllId(t.rules) == Some(row.id)
  {
    CatchAllIdMeaning(t.rules);
    var c :| c in t.rules && c.name == CATCH_ALL && c.id == CatchAllId(t.rules).value;
    var i :| 0 <= i < |t.rules| && t.rules[i] == row;
    var j :| 0 <= j < |t.rules| && t.rules[j] == c;
    assert i == j;
  }

  /** Main result. With no catch-all before, every message gets an answer afterwards: a rule, or the error of one. */
  lemma EveryMessageIsAnsweredAtFirst(env: Env, msg: Message, t: Tables, cascade: bool)
    requires WellKept(t) && forall r <- t.rules :: r.name != "_catch_all"
    ensures WellKept(EnsureCatchAll(t, cascade))
    ensures var rules := ListRules(EnsureCatchAll(t, cascade)); var m := MatchRules(env, msg, rules, NEW_EXTRAS).0;
      !m.NoMatch? && ((forall r <- rules :: FreshRule(env, msg, r).result.Ok?) ==> m.Matched?)
  {
    hide WellKept, EnsureCatchAll, ListRules, MatchRules, FreshRule, LoadGroups, ActionsOf;
    NewCatchAll(t, cascade);
    NoCatchAllYet(t);
    var u, n := EnsureCatchAll(t, cascade), |t.rules|;
    forall i | 0 <= i < n ensures u.rules[i].name != CATCH_ALL {
      assert u.rules[..n][i] == t.rules[i] && t.rules[i] in t.rules;
    }
    forall c | c in u.rules && c.name == CATCH_ALL ensures c.enabled && c.days == "" && c.start == "" && c.end == "" {
      var i :| 0 <= i < |u.rules| && u.rules[i] == c;
      assert i == n;
    }
    EveryMessageIsAnswered(env, msg, t, cascade);
  }
}
