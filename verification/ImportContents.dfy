/** What an import creates: the rules of the file, and nothing else changes. */
module ImportContents {
  import opened Text
  import opened RuleTypes
  import opened RuleStore
  import opened RuleRoundTrip
  import opened RuleExport
  import opened Engine
  import opened Validate
  import opened Ordering
  import opened RuleOrder
  import opened CatchAllProofs
  import opened Importing
  import opened ImportProofs
  import opened ProblemProofs

  // ----- a rule is what the file says -----

  predicate ConditionsMatch(cs: seq<ConditionExport>, ds: seq<Condition>) {
    |ds| == |cs| && forall i :: 0 <= i < |cs| ==>
      ds[i].field == cs[i].field && ds[i].operator == cs[i].operator && ds[i].value == cs[i].value
  }

  /** AND stays AND, anything else is OR. */
  predicate OperatorMatches(exported: string, operator: string) {
    operator == if exported == "AND" then "AND" else "OR"
  }

  predicate ForestMatches(gs: seq<GroupExport>, hs: seq<Group>)
    decreases gs
  {
    |hs| == |gs| &&
    (gs == [] ||
     (&& OperatorMatches(gs[0].operator, hs[0].operator) && ConditionsMatch(gs[0].conditions, hs[0].conditions)
      && ForestMatches(gs[0].groups, hs[0].groups) && ForestMatches(gs[1..], hs[1..])))
  }

  /** Flat conditions are one group; else the groups are the groups. */
  predicate GroupsMatch(re: Export, gs: seq<Group>) {
    if re.conditions != [] then
      |gs| == 1 && OperatorMatches(re.operator, gs[0].operator) && ConditionsMatch(re.conditions, gs[0].conditions)
      && gs[0].groups == []
    else ForestMatches(re.groups, gs)
  }

  predicate ActionsMatch(exported: seq<ActionExport>, actions: seq<Action>) {
    |actions| == |exported|
    && forall i :: 0 <= i < |exported| ==> actions[i].kind == exported[i].kind && actions[i].value == exported[i].value
  }

  predicate Matches(re: Export, rule: Rule) {
    && rule.description == re.description && rule.priority == re.priority && rule.enabled == re.enabled
    && rule.scheduleDays == re.scheduleDays && rule.scheduleStart == re.scheduleStart
    && rule.scheduleEnd == re.scheduleEnd
    && GroupsMatch(re, rule.groups) && ActionsMatch(re.actions, rule.actions)
  }

  lemma {:induction false} GroupsInMatch(gs: seq<GroupExport>)
    ensures ForestMatches(gs, GroupsIn(gs))
    decreases gs
  {
    if gs == [] {
    } else {
      GroupsInMatch(gs[0].groups);
      GroupsInMatch(gs[1..]);
      assert GroupsIn(gs)[1..] == GroupsIn(gs[1..]);
    }
  }

  lemma ReadMatches(re: Export, name: string)
    ensures Matches(re, ExportToRule(re, name)) && ExportToRule(re, name).name == name
  {
    GroupsInMatch(re.groups);
  }

  // ----- the tables -----

  lemma CreateReads(t: Tables, rule: Rule)
    requires WellKept(t)
    ensures var u := Create(t, rule); var n := |t.rules|;
      && WellKept(u) && |u.rules| == n + 1 && u.rules[..n] == t.rules
      && ReadRule(u, u.rules[n]) == rule.(id := u.rules[n].id)
      && forall row <- t.rules :: ReadRule(u, row) == ReadRule(t, row)
  {
    hide WellKept, Create, LoadTree, ActionsOf;
    CreateRoundTrip(t, rule, t.nextRule + 1);
    var u := Create(t, rule);
    forall row | row in t.rules ensures ReadRule(u, row) == ReadRule(t, row) {
      OldId(t, row);
      CreateRoundTrip(t, rule, row.id);
    }
  }

  lemma OldId(t: Tables, row: RuleRow)
    requires WellKept(t) && row in t.rules
    ensures row.id != t.nextRule
  {
  }

  /** The name under which a rule is imported: its own, trimmed, if that is not taken, else under "rename" that with the
      first number that is free. */
  ghost predicate NamedFor(re: Export, policy: string, name: string, taken: set<string>) {
    var own := Trim(re.name);
    if Lower(own) !in taken then name == own
    else policy == "rename"
         && exists n: nat :: 2 <= n && name == own + " (" + Decimal(n) + ")" && Lower(name) !in taken
                             && LowerUsed(taken, own, n)
  }

  /** From `t` to `u` the rules of the file with these numbers were created, in order, and nothing else was done. */
  ghost predicate Created(t: Tables, u: Tables, rules: seq<Export>, policy: string, picks: seq<nat>) {
    var n := |t.rules|;
    && WellKept(t) && WellKept(u) && |u.rules| == n + |picks| && u.rules[..n] == t.rules
    && (forall row <- t.rules :: ReadRule(u, row) == ReadRule(t, row))
    && (forall i :: 0 <= i < |picks| ==> picks[i] < |rules|)
    && (forall i, j :: 0 <= i < j < |picks| ==> picks[i] < picks[j])
    && (forall k :: 0 <= k < |picks| ==> IsPick(u, n + k, rules[picks[k]], policy))
  }

  /** Row i is this rule, named with regard to the rows before it. */
  ghost predicate IsPick(u: Tables, i: nat, re: Export, policy: string)
    requires WellKept(u) && i < |u.rules|
  {
    Matches(re, ReadRule(u, u.rules[i])) && NamedFor(re, policy, u.rules[i].name, Keys(u.rules[..i]))
  }

  lemma NoneCreated(t: Tables, rules: seq<Export>, policy: string)
    requires WellKept(t)
    ensures Created(t, t, rules, policy, [])
  {
  }

  lemma OneCreated(t: Tables, u: Tables, v: Tables, rules: seq<Export>, policy: string, i: nat, name: string,
                   picks: seq<nat>)
    requires WellKept(t) && i < |rules| && u == Create(t, ExportToRule(rules[i], name))
        && NamedFor(rules[i], policy, name, Keys(t.rules))
    requires Created(u, v, rules, policy, picks) && forall k :: 0 <= k < |picks| ==> i < picks[k]
    ensures Created(t, v, rules, policy, [i] + picks)
  {
    hide WellKept, Create, ExportToRule, Matches, NamedFor, LoadGroups, ActionsOf, Key;
    ReadMatches(rules[i], name);
    hide Keys;
    var rule := ExportToRule(rules[i], name);
    CreateReads(t, rule);
    var n, all := |t.rules|, [i] + picks;
    var row := u.rules[n];
    assert v.rules[n] == v.rules[..n + 1][n] == row && row in u.rules;
    assert v.rules[..n] == v.rules[..n + 1][..n] == t.rules;
    SameMatch(rules[i], rule, row.id);
    assert ReadRule(v, row) == ReadRule(u, row) && row.name == name;
    forall r | r in t.rules ensures ReadRule(v, r) == ReadRule(t, r) {
      var k :| 0 <= k < n && t.rules[k] == r;
      assert u.rules[..n][k] == r && r in u.rules;
    }
    forall k | 0 <= k < |all| ensures IsPick(v, n + k, rules[all[k]], policy) {
      if k > 0 { assert all[k] == picks[k - 1]; }
    }
  }

  lemma SameMatch(re: Export, rule: Rule, id: int)
    requires Matches(re, rule)
    ensures Matches(re, rule.(id := id))
  {
  }

  // ----- the loop -----

  /** The rules that are created: under "rename" all, under any other policy those the preview does not flag. */
  ghost predicate Picked(policy: string, flags: seq<bool>, from: nat, picks: seq<nat>) {
    && (forall i <- picks :: from <= i < from + |flags|)
    && (forall i: nat :: from <= i < from + |flags| ==> (i in picks <==> policy == "rename" || !flags[i - from]))
  }

  lemma PickedOn(policy: string, flag: bool, flags: seq<bool>, from: nat, picks: seq<nat>)
    requires Picked(policy, flags, from + 1, picks)
    ensures Picked(policy, [flag] + flags, from, if policy == "rename" || !flag then [from] + picks else picks)
  {
    var all := [flag] + flags;
    var r := if policy == "rename" || !flag then [from] + picks else picks;
    assert from !in picks;
    assert forall i :: i in r <==> i in picks || (i == from && (policy == "rename" || !flag));
    forall i: nat | from <= i < from + |all| ensures i in r <==> policy == "rename" || !all[i - from] {
      if i > from { assert all[i - from] == flags[i - (from + 1)]; }
    }
  }

  /** One turn: a rule is created, under its own name or a free one, unless its name is taken and the policy is not
      "rename". */
  lemma TurnCreates(p: Progress, existing: set<string>, policy: string, rules: seq<Export>, i: nat)
    returns (name: string)
    requires i < |rules|
    ensures var q := ImportOne(p, existing, policy, rules[i], i);
      var flagged := Key(rules[i].name) in existing + p.seen;
      && (policy == "rename" || !flagged ==>
            && NamedFor(rules[i], policy, name, existing + p.seen)
            && q.tables == Create(p.tables, ExportToRule(rules[i], name))
            && q.seen == p.seen + {Lower(name)} && (Trim(rules[i].name) != "" ==> Key(name) == Lower(name)))
      && (policy != "rename" && flagged ==> q.tables == p.tables && q.seen == p.seen)
      && (policy != "rename" && !flagged ==> q.seen == p.seen + {Key(rules[i].name)})
  {
    hide Create, ExportToRule, Trim, Lower, Decimal;
    var own, taken := Trim(rules[i].name), existing + p.seen;
    name := ChosenName(taken, own);
    if own != "" { ChosenIsFree(taken, rules[i].name); }
  }

  lemma {:induction false} ImportFromCreates(p: Progress, existing: set<string>, seen: set<string>, policy: string,
                                             rules: seq<Export>, i: nat) returns (picks: seq<nat>)
    requires WellKept(p.tables) && i <= |rules|
    requires existing + p.seen == Keys(p.tables.rules) && forall re <- rules :: Trim(re.name) != ""
    requires policy == "rename" || existing + p.seen == existing + seen
    ensures Created(p.tables, ImportFrom(p, existing, policy, rules, i).tables, rules, policy, picks)
    ensures Picked(policy, PreviewFrom(existing, seen, rules[i..]), i, picks)
    decreases |rules| - i
  {
    hide WellKept, ImportOne, Created, Create, ExportToRule, NamedFor, Key;
    if i == |rules| {
      picks := [];
      NoneCreated(p.tables, rules, policy);
    } else {
      var name := TurnCreates(p, existing, policy, rules, i);
      var q := ImportOne(p, existing, policy, rules[i], i);
      var key := Key(rules[i].name);
      var flagged := key in existing + seen;
      assert rules[i..][1..] == rules[i + 1..];
      FlagFirst(existing, seen, rules[i..]);
      var flags := PreviewFrom(existing, seen + {key}, rules[i + 1..]);
      hide PreviewFrom;
      assert PreviewFrom(existing, seen, rules[i..]) == [flagged] + flags;
      if policy == "rename" || !flagged {
        assert rules[i] in rules;
        ReadMatches(rules[i], name);
        CreateKeeps(p.tables, ExportToRule(rules[i], name));
      }
      assert existing + q.seen == Keys(q.tables.rules);
      picks := ImportFromCreates(q, existing, seen + {key}, policy, rules, i + 1);
      PickedOn(policy, flagged, flags, i, picks);
      if policy == "rename" || !flagged {
        forall k | 0 <= k < |picks| ensures i < picks[k] { assert picks[k] in picks; }
        OneCreated(p.tables, q.tables, ImportFrom(p, existing, policy, rules, i).tables, rules, policy, i, name, picks);
        picks := [i] + picks;
      }
    }
  }

  lemma CreateKeeps(t: Tables, rule: Rule)
    requires WellKept(t)
    ensures WellKept(Create(t, rule)) && Keys(Create(t, rule).rules) == Keys(t.rules) + {Key(rule.name)}
  {
    CreateRoundTrip(t, rule, t.nextRule + 1);
    hide WellKept, Create, Key;
    var u := Create(t, rule);
    assert forall r <- t.rules :: r in u.rules;
    assert u.rules[|t.rules|] in u.rules;
  }

  /** Main result. Whatever the policy, an import of a valid file leaves every rule as it was and creates, in the order
      of the file, exactly its rules that the preview does not flag, or under "rename" all of them: each is read back
      with the description, priority, enabled flag, schedule, groups and actions the file gives it, under its trimmed
      name or, if the rules before it have that and the policy is "rename", that name with the first free number. */
  lemma ImportCreatesTheFile(env: Env, lib: Lib, t: Tables, rules: seq<Export>, policy: string)
    returns (picks: seq<nat>)
    requires WellKept(t) && FileErrors(env, lib, rules, 0) == []
    ensures Created(t, ImportWithReport(env, lib, t, rules, policy).tables, rules, policy, picks)
    ensures forall i: nat :: i < |rules| ==> (i in picks <==> policy == "rename" || !Preview(t, rules)[i])
  {
    ValidFile(env, lib, rules);
    hide FileErrors, ImportFrom, PreviewFrom, Created, Trim;
    picks := ImportFromCreates(Progress(t, {}, NEW_REPORT), Keys(t.rules), {}, policy, rules, 0);
    assert rules[0..] == rules;
  }

  /** A file that is not valid changes nothing. */
  lemma RejectedChangesNothing(env: Env, lib: Lib, t: Tables, rules: seq<Export>, policy: string)
    requires FileErrors(env, lib, rules, 0) != []
    ensures var r := ImportWithReport(env, lib, t, rules, policy);
      r.tables == t && r.rejected && r.report.errors == FileErrors(env, lib, rules, 0) && r.report.imported == 0
  {
    hide FileErrors;
  }

  // ----- the report -----

  /** What a rule of the file is reported for: a problem it has, under its number and name. */
  ghost predicate IsFileError(env: Env, lib: Lib, rules: seq<Export>, e: RuleError) {
    e.index < |rules| && e.name == rules[e.index].name && e.failure.Invalid?
    && RuleHas(env, lib, rules[e.index], e.failure.problem)
  }

  /** A file is rejected for exactly the problems its rules have. */
  lemma {:induction false} FileErrorsIff(env: Env, lib: Lib, rules: seq<Export>, i: nat, e: RuleError)
    requires i <= |rules|
    ensures e in FileErrors(env, lib, rules, i) <==> i <= e.index && IsFileError(env, lib, rules, e)
    decreases |rules| - i
  {
    hide ValidateRuleExport, RuleHas;
    if i == |rules| {
    } else {
      FileErrorsIff(env, lib, rules, i + 1, e);
      var problems := ValidateRuleExport(env, lib, rules[i]);
      var found := ErrorsOf(problems, i, rules[i].name);
      if e.failure.Invalid? { ReportedIff(env, lib, rules[i], e.failure.problem); }
      if e.index == i && IsFileError(env, lib, rules, e) {
        var k :| 0 <= k < |problems| && problems[k] == e.failure.problem;
        assert found[k] == e;
      }
    }
  }

  /** The numbers of the rules the preview flags, in order. */
  ghost predicate Flagged(flags: seq<bool>, from: nat, picks: seq<nat>) {
    && (forall j, k :: 0 <= j < k < |picks| ==> picks[j] < picks[k])
    && (forall i: nat :: i in picks <==> from <= i < from + |flags| && flags[i - from])
  }

  lemma FlaggedOn(flag: bool, flags: seq<bool>, from: nat, picks: seq<nat>)
    requires Flagged(flags, from + 1, picks)
    ensures Flagged([flag] + flags, from, if flag then [from] + picks else picks)
  {
    var all, r := [flag] + flags, if flag then [from] + picks else picks;
    forall k | 0 <= k < |picks| ensures from < picks[k] { assert picks[k] in picks; }
    forall i: nat ensures i in r <==> from <= i < from + |all| && all[i - from] {
      assert i in r <==> i in picks || (flag && i == from);
      if i > from && i < from + |all| { assert all[i - from] == flags[i - (from + 1)]; }
    }
  }

  function NamesAt(rules: seq<Export>, picks: seq<nat>): seq<string>
    requires forall k :: 0 <= k < |picks| ==> picks[k] < |rules|
  {
    seq(|picks|, k requires 0 <= k < |picks| => Trim(rules[picks[k]].name))
  }

  /** What is added to the report for the flagged rules, under any policy but "rename". */
  ghost predicate ReportsFlagged(policy: string, rules: seq<Export>, picks: seq<nat>, r: ImportReport,
                                 after: ImportReport)
  {
    && (forall k :: 0 <= k < |picks| ==> picks[k] < |rules|)
    && (if policy == "error" then
          && |after.errors| == |r.errors| + |picks| && r.errors <= after.errors
          && after.warnings == r.warnings && after.skipped == r.skipped
          && forall k :: 0 <= k < |picks| ==>
               after.errors[|r.errors| + k] == RuleError(picks[k], Trim(rules[picks[k]].name), DuplicateName)
        else
          after.errors == r.errors && after.skipped == r.skipped + |picks|
          && after.warnings == r.warnings + NamesAt(rules, picks))
  }

  lemma ReportsOn(policy: string, rules: seq<Export>, i: nat, picks: seq<nat>, r: ImportReport, mid: ImportReport,
                  after: ImportReport)
    requires i < |rules| && ReportsFlagged(policy, rules, picks, mid, after)
    requires if policy == "error" then
               mid == r.(errors := r.errors + [RuleError(i, Trim(rules[i].name), DuplicateName)])
             else mid == r.(skipped := r.skipped + 1, warnings := r.warnings + [Trim(rules[i].name)])
    ensures ReportsFlagged(policy, rules, [i] + picks, r, after)
  {
    hide Trim;
    if policy != "error" { assert NamesAt(rules, [i] + picks) == [Trim(rules[i].name)] + NamesAt(rules, picks); }
  }

  lemma ReportsNone(policy: string, rules: seq<Export>, r: ImportReport, more: nat)
    ensures ReportsFlagged(policy, rules, [], r, r.(imported := more))
  {
    assert r.warnings + NamesAt(rules, []) == r.warnings;
  }

  lemma ReportsSame(policy: string, rules: seq<Export>, picks: seq<nat>, r: ImportReport, mid: ImportReport,
                    after: ImportReport)
    requires ReportsFlagged(policy, rules, picks, mid, after) && mid == r.(imported := mid.imported)
    ensures ReportsFlagged(policy, rules, picks, r, after)
  {
  }

  lemma {:induction false} ImportFromReports(p: Progress, existing: set<string>, seen: set<string>, policy: string,
                                             rules: seq<Export>, i: nat) returns (picks: seq<nat>)
    requires policy != "rename" && existing + p.seen == existing + seen && i <= |rules|
    ensures Flagged(PreviewFrom(existing, seen, rules[i..]), i, picks)
    ensures ReportsFlagged(policy, rules, picks, p.report, ImportFrom(p, existing, policy, rules, i).report)
    decreases |rules| - i
  {
    hide Create, ExportToRule, Trim, Lower, ReportsFlagged, Flagged, FreeName;
    if i == |rules| {
      picks := [];
      NoneFlaggedYet(i);
      ReportsNone(policy, rules, p.report, p.report.imported);
    } else {
      var q := ImportOne(p, existing, policy, rules[i], i);
      var key := Key(rules[i].name);
      var flag := key in existing + seen;
      assert rules[i..][1..] == rules[i + 1..];
      FlagFirst(existing, seen, rules[i..]);
      var flags := PreviewFrom(existing, seen + {key}, rules[i + 1..]);
      hide PreviewFrom;
      picks := ImportFromReports(q, existing, seen + {key}, policy, rules, i + 1);
      FlaggedOn(flag, flags, i, picks);
      var after := ImportFrom(p, existing, policy, rules, i).report;
      if flag {
        ReportsOn(policy, rules, i, picks, p.report, q.report, after);
        picks := [i] + picks;
      } else {
        ReportsSame(policy, rules, picks, p.report, q.report, after);
      }
    }
  }

  lemma NoneFlaggedYet(from: nat)
    ensures Flagged([], from, [])
  {
  }

  /** Main result. Under any policy but "rename" the report of a valid file names exactly the rules the preview flags,
      in order: under "error" each with its number, under any other each as skipped. */
  lemma ImportReportsTheFlagged(env: Env, lib: Lib, t: Tables, rules: seq<Export>, policy: string)
    returns (picks: seq<nat>)
    requires FileErrors(env, lib, rules, 0) == [] && policy != "rename"
    ensures Flagged(Preview(t, rules), 0, picks)
    ensures ReportsFlagged(policy, rules, picks, NEW_REPORT, ImportWithReport(env, lib, t, rules, policy).report)
  {
    hide FileErrors, ImportFrom, PreviewFrom, Flagged, ReportsFlagged;
    picks := ImportFromReports(Progress(t, {}, NEW_REPORT), Keys(t.rules), {}, policy, rules, 0);
    assert rules[0..] == rules;
  }

  // ----- export, then import -----

  const EMPTY := Tables([], [], [], [], 1, 1, 1, 1)

  function Exports(rules: seq<Rule>): (r: seq<Export>)
    ensures |r| == |rules| && forall i :: 0 <= i < |rules| ==> r[i] == RuleToExport(rules[i])
  {
    seq(|rules|, i requires 0 <= i < |rules| => RuleToExport(rules[i]))
  }

  /** The rules as `List` gives them, with names that differ and are trimmed, and forests that an export keeps. */
  ghost predicate Portable(rules: seq<Rule>) {
    && (forall i :: 0 <= i < |rules| ==>
          AllAndOr(rules[i].groups) && !EmptyRoot(rules[i].groups) && Trim(rules[i].name) == rules[i].name)
    && (forall i, j :: 0 <= i < j < |rules| ==>
          Key(rules[i].name) != Key(rules[j].name) && rules[i].priority <= rules[j].priority)
  }

  lemma NoneFlagged(rules: seq<Rule>, i: nat)
    requires Portable(rules) && i < |rules|
    ensures !Preview(EMPTY, Exports(rules))[i]
  {
    hide Key, PreviewFrom;
    PreviewMeaning(Keys([]), {}, Exports(rules), i);
    assert Keys([]) == {};
    assert forall j :: 0 <= j < |rules| ==> Exports(rules)[j].name == rules[j].name;
  }

  /** What is written and matched is the rule again. */
  lemma {:induction false} ForestBack(gs: seq<Group>, hs: seq<Group>)
    requires AllAndOr(gs) && ForestMatches(GroupsOut(gs), hs)
    ensures hs == gs
    decreases gs
  {
    if gs == [] {
    } else {
      var out := GroupsOut(gs);
      assert out[0] == GroupToExport(gs[0]) && out[1..] == GroupsOut(gs[1..]);
      ForestBack(gs[0].groups, hs[0].groups);
      ForestBack(gs[1..], hs[1..]);
      assert hs[0].conditions == gs[0].conditions;
      assert hs == [hs[0]] + hs[1..] && gs == [gs[0]] + gs[1..];
    }
  }

  lemma RuleBack(rule: Rule, r: Rule)
    requires AllAndOr(rule.groups) && !EmptyRoot(rule.groups) && Matches(RuleToExport(rule), r) && r.name == rule.name
    ensures r == rule.(id := r.id)
  {
    var gs := rule.groups;
    assert r.actions == rule.actions;
    if |gs| == 1 && gs[0].groups == [] {
      assert r.groups[0].conditions == gs[0].conditions;
      assert r.groups == [r.groups[0]] && gs == [gs[0]];
    } else {
      ForestBack(gs, r.groups);
    }
  }

  /** All numbers below n, in order. */
  lemma {:induction false} AllPicked(picks: seq<nat>, n: nat)
    requires forall i :: 0 <= i < |picks| ==> picks[i] < n
    requires forall i, j :: 0 <= i < j < |picks| ==> picks[i] < picks[j]
    requires forall i: nat :: i < n ==> i in picks
    ensures |picks| == n && forall i :: 0 <= i < n ==> picks[i] == i
    decreases n
  {
    if n == 0 {
    } else {
      var last: nat := n - 1;
      assert last in picks;
      var k :| 0 <= k < |picks| && picks[k] == last;
      assert picks[|picks| - 1] < n;
      assert k == |picks| - 1;
      var front := picks[..k];
      forall i: nat | i < n - 1 ensures i in front {
        assert i in picks;
        var j :| 0 <= j < |picks| && picks[j] == i;
        assert front[j] == i;
      }
      AllPicked(front, n - 1);
      assert forall i :: 0 <= i < n - 1 ==> picks[i] == front[i];
    }
  }

  /** Rows already in order are listed as they are. */
  lemma {:induction false} SortedStays(rows: seq<RuleRow>)
    requires SortedBy(Before, rows)
    ensures Listed(rows) == rows
    decreases |rows|
  {
    if rows == [] {
    } else {
      SortedStays(rows[1..]);
      SortFirst(Before, rows);
      if |rows| > 1 { assert Before(rows[0], rows[1]); }
    }
  }

  lemma RowsAscend(t: Tables)
    requires WellKept(t) && forall i, j :: 0 <= i < j < |t.rules| ==> t.rules[i].priority <= t.rules[j].priority
    ensures SortedBy(Before, t.rules)
  {
  }

  /** Each row is named for the rule of the same number. */
  ghost predicate NamedInOrder(rules: seq<Rule>, rows: seq<RuleRow>, policy: string) {
    && |rows| == |rules|
    && forall k :: 0 <= k < |rows| ==> NamedFor(RuleToExport(rules[k]), policy, rows[k].name, Keys(rows[..k]))
  }

  /** With names that differ, none of them is taken when its turn comes. */
  lemma {:induction false} NamesBack(rules: seq<Rule>, rows: seq<RuleRow>, policy: string, n: nat)
    requires Portable(rules) && NamedInOrder(rules, rows, policy) && n <= |rows|
    ensures forall k :: 0 <= k < n ==> rows[k].name == rules[k].name
    decreases n
  {
    hide Trim, Lower, RuleToExport, AllAndOr, EmptyRoot, LowerUsed;
    if n == 0 {
    } else {
      var last := n - 1;
      NamesBack(rules, rows, policy, last);
      assert RuleToExport(rules[last]).name == rules[last].name by { NameOut(rules[last]); }
      assert Key(rules[last].name) !in Keys(rows[..last]);
      assert NamedFor(RuleToExport(rules[last]), policy, rows[last].name, Keys(rows[..last]));
    }
  }

  lemma NameOut(rule: Rule)
    ensures RuleToExport(rule).name == rule.name
  {
  }

  lemma RowsNamed(rules: seq<Rule>, u: Tables, policy: string, picks: seq<nat>)
    requires Created(EMPTY, u, Exports(rules), policy, picks)
    requires |picks| == |rules| && forall i :: 0 <= i < |rules| ==> picks[i] == i
    ensures NamedInOrder(rules, u.rules, policy)
  {
    hide WellKept, NamedFor, Matches, LoadGroups, ActionsOf, RuleToExport, Keys;
    forall k | 0 <= k < |rules|
      ensures NamedFor(RuleToExport(rules[k]), policy, u.rules[k].name, Keys(u.rules[..k]))
    {
      assert IsPick(u, 0 + k, Exports(rules)[picks[k]], policy);
    }
  }

  lemma RowsBack(rules: seq<Rule>, u: Tables, policy: string, picks: seq<nat>)
    requires Portable(rules) && Created(EMPTY, u, Exports(rules), policy, picks)
    requires |picks| == |rules| && forall i :: 0 <= i < |rules| ==> picks[i] == i
    ensures WellKept(u) && |u.rules| == |rules|
    ensures forall k :: 0 <= k < |rules| ==> ReadRule(u, u.rules[k]) == rules[k].(id := u.rules[k].id)
  {
    hide WellKept, NamedFor, Matches, LoadGroups, ActionsOf, RuleToExport, Keys, NamedInOrder, AllAndOr, EmptyRoot;
    RowsNamed(rules, u, policy, picks);
    NamesBack(rules, u.rules, policy, |rules|);
    forall k | 0 <= k < |rules| ensures ReadRule(u, u.rules[k]) == rules[k].(id := u.rules[k].id) {
      assert IsPick(u, 0 + k, Exports(rules)[picks[k]], policy);
      RuleBack(rules[k], ReadRule(u, u.rules[k]));
    }
  }

  lemma ListedBack(rules: seq<Rule>, u: Tables)
    requires Portable(rules) && WellKept(u) && |u.rules| == |rules|
    requires forall k :: 0 <= k < |rules| ==> ReadRule(u, u.rules[k]) == rules[k].(id := u.rules[k].id)
    ensures Listed(u.rules) == u.rules
  {
    hide WellKept, LoadGroups, ActionsOf, AllAndOr, EmptyRoot, Listed, Trim, Key;
    forall i, j | 0 <= i < j < |u.rules| ensures u.rules[i].priority <= u.rules[j].priority {
      assert ReadRule(u, u.rules[i]).priority == rules[i].priority;
      assert ReadRule(u, u.rules[j]).priority == rules[j].priority;
    }
    RowsAscend(u);
    SortedStays(u.rules);
  }

  /** Main result. Rules exported and imported into empty tables, under any policy, are listed again, the same in the
      same order, up to their ids. */
  lemma ExportedRulesComeBack(env: Env, lib: Lib, rules: seq<Rule>, policy: string)
    requires Portable(rules) && FileErrors(env, lib, Exports(rules), 0) == []
    ensures var u := ImportWithReport(env, lib, EMPTY, Exports(rules), policy).tables;
      && WellKept(u) && |ListRules(u)| == |rules|
      && forall k :: 0 <= k < |rules| ==> ListRules(u)[k] == rules[k].(id := ListRules(u)[k].id)
  {
    hide FileErrors, ImportWithReport, WellKept, Portable, PreviewFrom, ReadRule, Listed, IsPick;
    NothingIsWellKept();
    var picks := ImportCreatesTheFile(env, lib, EMPTY, Exports(rules), policy);
    var u := ImportWithReport(env, lib, EMPTY, Exports(rules), policy).tables;
    forall i: nat | i < |rules| ensures i in picks { NoneFlagged(rules, i); }
    AllPicked(picks, |rules|);
    hide Created;
    RowsBack(rules, u, policy, picks);
    ListedBack(rules, u);
  }

  lemma NothingIsWellKept()
    ensures WellKept(EMPTY)
  {
  }
}
