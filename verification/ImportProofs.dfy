/** What an import promises about names, counts and the preview. */
module ImportProofs {
  import opened Text
  import opened FreeNames
  import opened RuleTypes
  import opened RuleStore
  import opened RuleRoundTrip
  import opened RuleExport
  import opened Engine
  import opened Validate
  import opened Seqs
  import opened Importing

  // ----- names of created rules -----

  /** Keys differ from each other and from the existing ones. */
  ghost predicate Fresh(rows: seq<RuleRow>, existing: set<string>) {
    && (forall i, j :: 0 <= i < j < |rows| ==> Key(rows[i].name) != Key(rows[j].name))
    && (forall r <- rows :: Key(r.name) !in existing)
  }

  /** The import so far: new rows behind the old ones, and their keys are the ones seen. */
  ghost predicate Underway(t: Tables, existing: set<string>, p: Progress) {
    && WellKept(p.tables)
    && |t.rules| <= |p.tables.rules| && p.tables.rules[..|t.rules|] == t.rules
    && var created := p.tables.rules[|t.rules|..];
       Fresh(created, existing) && Keys(created) == p.seen && |created| == p.report.imported
  }

  lemma KeyOfTrimmed(name: string)
    ensures Key(Trim(name)) == Key(name) == Lower(Trim(name))
  {
    var lead, trail := TrimMeaning(name);
    TrimOfTrimmed(Trim(name));
  }

  /** A candidate made from a trimmed name is its own trimmed name. */
  lemma KeyOfCandidate(name: string, m: nat)
    requires Trim(name) != ""
    ensures Key(Candidate(Trim(name), m)) == Lower(Candidate(Trim(name), m))
  {
    var lead, trail := TrimMeaning(name);
    var c := Candidate(Trim(name), m);
    assert c[0] == Trim(name)[0] && c[|c| - 1] == ')';
    TrimOfTrimmed(c);
  }

  lemma OneMoreFresh(rows: seq<RuleRow>, row: RuleRow, existing: set<string>)
    requires Fresh(rows, existing) && Key(row.name) !in existing && Key(row.name) !in Keys(rows)
    ensures Fresh(rows + [row], existing) && Keys(rows + [row]) == Keys(rows) + {Key(row.name)}
  {
    hide Key;
    assert forall i :: 0 <= i < |rows| ==> rows[i] in rows;
    forall r | r in rows + [row] ensures r in rows || r == row {}
    assert row in rows + [row] && forall r <- rows :: r in rows + [row];
  }

  /** The name a new rule gets. */
  function ChosenName(taken: set<string>, name: string): string {
    if Lower(name) in taken then FreeName(taken, name) else name
  }

  lemma ChosenIsFree(taken: set<string>, name: string)
    requires Trim(name) != ""
    ensures var c := ChosenName(taken, Trim(name)); Key(c) == Lower(c) && Key(c) !in taken
  {
    KeyOfTrimmed(name);
    if Lower(Trim(name)) in taken {
      var m: nat :| 2 <= m && FreeName(taken, Trim(name)) == Candidate(Trim(name), m);
      KeyOfCandidate(name, m);
    }
  }

  lemma CreateAppends(t: Tables, rule: Rule)
    requires WellKept(t)
    ensures WellKept(Create(t, rule)) && Create(t, rule).rules == t.rules + [RowOf(rule, t.nextRule)]
  {
    CreateRoundTrip(t, rule, t.nextRule + 1);
  }

  lemma ImportOneKeeps(t: Tables, existing: set<string>, policy: string, p: Progress, re: Export, i: nat)
    requires Underway(t, existing, p) && Trim(re.name) != ""
    ensures Underway(t, existing, ImportOne(p, existing, policy, re, i))
  {
    hide WellKept, Create, Fresh, Keys, Trim, Lower, FreeName, Key;
    var name, taken := Trim(re.name), existing + p.seen;
    if Lower(name) !in taken || policy == "rename" {
      ChosenIsFree(taken, re.name);
      var free := ChosenName(taken, name);
      var rule := ExportToRule(re, free);
      CreateAppends(p.tables, rule);
      var created := p.tables.rules[|t.rules|..];
      var row := RowOf(rule, p.tables.nextRule);
      OneMoreFresh(created, row, existing);
      assert (p.tables.rules + [row])[|t.rules|..] == created + [row];
      assert (p.tables.rules + [row])[..|t.rules|] == t.rules;
    }
  }

  function Done(r: ImportReport): nat {
    r.imported + r.skipped + |r.errors|
  }

  lemma {:induction false} ImportFromKeeps(t: Tables, existing: set<string>, policy: string, p: Progress,
                                           rules: seq<Export>, i: nat)
    requires Underway(t, existing, p) && i <= |rules| && forall re <- rules :: Trim(re.name) != ""
    ensures var q := ImportFrom(p, existing, policy, rules, i);
      Underway(t, existing, q) && Done(q.report) == Done(p.report) + |rules| - i
    decreases |rules| - i
  {
    hide Underway, Create, FreeName, Trim, Lower;
    if i >= |rules| {
    } else {
      ImportOneKeeps(t, existing, policy, p, rules[i], i);
      ImportFromKeeps(t, existing, policy, ImportOne(p, existing, policy, rules[i], i), rules, i + 1);
    }
  }

  lemma {:induction false} ValidNames(env: Env, lib: Lib, rules: seq<Export>, i: nat)
    requires i <= |rules| && FileErrors(env, lib, rules, i) == []
    ensures forall k :: i <= k < |rules| ==> Trim(rules[k].name) != ""
    decreases |rules| - i
  {
    hide *;
    if i >= |rules| {
    } else {
      FirstValid(env, lib, rules, i);
      ValidNames(env, lib, rules, i + 1);
    }
  }

  lemma FirstValid(env: Env, lib: Lib, rules: seq<Export>, i: nat)
    requires i < |rules| && FileErrors(env, lib, rules, i) == []
    ensures Trim(rules[i].name) != "" && FileErrors(env, lib, rules, i + 1) == []
  {
    hide ValidateRuleExport, Trim;
    var problems := ValidateRuleExport(env, lib, rules[i]);
    assert |ErrorsOf(problems, i, rules[i].name)| == |problems|;
    NamedIfValid(env, lib, rules[i]);
  }

  lemma NamedIfValid(env: Env, lib: Lib, re: Export)
    requires ValidateRuleExport(env, lib, re) == []
    ensures Trim(re.name) != ""
  {
    hide Trim, GroupsProblems, ConditionsProblems, ScheduleProblems, ActionsProblems;
  }

  lemma ValidFile(env: Env, lib: Lib, rules: seq<Export>)
    requires FileErrors(env, lib, rules, 0) == []
    ensures forall re <- rules :: Trim(re.name) != ""
  {
    ValidNames(env, lib, rules, 0);
    hide Trim;
    forall re | re in rules ensures Trim(re.name) != "" {
      var k :| 0 <= k < |rules| && rules[k] == re;
    }
  }

  /** Main result. Under every policy a valid file's rules are each imported, skipped or reported, and the rules
      it creates have names that differ, trimmed and in lower case, from each other and from all that were there. */
  lemma ImportedNamesAreNew(env: Env, lib: Lib, t: Tables, rules: seq<Export>, policy: string)
    requires WellKept(t) && FileErrors(env, lib, rules, 0) == []
    ensures var r := ImportWithReport(env, lib, t, rules, policy);
      && WellKept(r.tables) && |t.rules| <= |r.tables.rules| && r.tables.rules[..|t.rules|] == t.rules
      && Fresh(r.tables.rules[|t.rules|..], Keys(t.rules))
      && |r.tables.rules| == |t.rules| + r.report.imported
      && r.report.imported + r.report.skipped + |r.report.errors| == |rules|
  {
    ValidFile(env, lib, rules);
    var p := Progress(t, {}, NEW_REPORT);
    assert p.tables.rules[|t.rules|..] == [];
    assert Underway(t, Keys(t.rules), p);
    ImportFromKeeps(t, Keys(t.rules), policy, p, rules, 0);
    hide WellKept, Trim, ImportFrom, FileErrors, Fresh, Keys;
  }

  // ----- the preview -----

  /** A rule is flagged when its name is taken, or occurs earlier in the file. */
  lemma {:induction false} PreviewMeaning(existing: set<string>, seen: set<string>, rules: seq<Export>, i: nat)
    requires i < |rules|
    ensures PreviewFrom(existing, seen, rules)[i] <==>
            Key(rules[i].name) in existing + seen || exists j :: 0 <= j < i && Key(rules[j].name) == Key(rules[i].name)
    decreases |rules|
  {
    hide Key;
    if i == 0 {
    } else {
      var k := Key(rules[0].name);
      PreviewMeaning(existing, seen + {k}, rules[1..], i - 1);
      if j :| 0 <= j < i && Key(rules[j].name) == Key(rules[i].name) {
        if j > 0 { assert rules[1..][j - 1] == rules[j]; }
      }
      if j :| 0 <= j < i - 1 && Key(rules[1..][j].name) == Key(rules[i].name) {
        assert rules[j + 1] == rules[1..][j];
      }
    }
  }

  /** The trimmed names of the rules with this flag. */
  function Pick(rules: seq<Export>, flags: seq<bool>, want: bool): seq<string>
    requires |rules| == |flags|
  {
    if rules == [] then []
    else (if flags[0] == want then [Trim(rules[0].name)] else []) + Pick(rules[1..], flags[1..], want)
  }

  function Names(rows: seq<RuleRow>): seq<string> {
    seq(|rows|, i requires 0 <= i < |rows| => rows[i].name)
  }

  predicate Skips(policy: string) {
    policy != "error" && policy != "rename"
  }

  lemma SkipOne(p: Progress, existing: set<string>, policy: string, re: Export, i: nat)
    requires WellKept(p.tables) && Skips(policy)
    ensures var q := ImportOne(p, existing, policy, re, i); var dup := Key(re.name) in existing + p.seen;
      && WellKept(q.tables)
      && Names(q.tables.rules) == Names(p.tables.rules) + (if dup then [] else [Trim(re.name)])
      && q.report.warnings == p.report.warnings + (if dup then [Trim(re.name)] else [])
      && (dup ==> q.tables == p.tables)
      && existing + q.seen == existing + p.seen + {Key(re.name)}
  {
    hide WellKept, Create, Trim, Lower, FreeName;
    var free := Trim(re.name);
    CreateAppends(p.tables, ExportToRule(re, free));
    Nothing(Names(p.tables.rules));
    Nothing(p.report.warnings);
  }

  lemma {:induction false} SkipsFlagged(p: Progress, existing: set<string>, seen: set<string>, policy: string,
                                        rules: seq<Export>, i: nat)
    requires WellKept(p.tables) && Skips(policy) && i <= |rules| && existing + p.seen == existing + seen
    ensures var q := ImportFrom(p, existing, policy, rules, i); var flags := PreviewFrom(existing, seen, rules[i..]);
      && Names(q.tables.rules) == Names(p.tables.rules) + Pick(rules[i..], flags, false)
      && q.report.warnings == p.report.warnings + Pick(rules[i..], flags, true)
      && ((forall k :: 0 <= k < |flags| ==> flags[k]) ==> q.tables == p.tables)
    decreases |rules| - i
  {
    hide WellKept, ImportOne, Trim, Key, Names;
    if i == |rules| {
      Nothing(Names(p.tables.rules));
      Nothing(p.report.warnings);
    } else {
      var q := ImportOne(p, existing, policy, rules[i], i);
      SkipOne(p, existing, policy, rules[i], i);
      assert rules[i..][1..] == rules[i + 1..];
      var key := Key(rules[i].name);
      SkipsFlagged(q, existing, seen + {key}, policy, rules, i + 1);
      var flags := PreviewFrom(existing, seen + {key}, rules[i + 1..]);
      var name := Trim(rules[i].name);
      var dup := key in existing + p.seen;
      FlagFirst(existing, seen, rules[i..]);
      ghost var all := PreviewFrom(existing, seen, rules[i..]);
      assert forall k :: 0 < k < |all| ==> all[k] == flags[k - 1];
      Concat(Names(p.tables.rules), if dup then [] else [name], Pick(rules[i + 1..], flags, false));
      Concat(p.report.warnings, if dup then [name] else [], Pick(rules[i + 1..], flags, true));
    }
  }

  lemma FlagFirst(existing: set<string>, seen: set<string>, rules: seq<Export>)
    requires rules != []
    ensures var flags := PreviewFrom(existing, seen, rules); var key := Key(rules[0].name);
      && flags[0] == (key in existing + seen)
      && flags[1..] == PreviewFrom(existing, seen + {key}, rules[1..])
  {
    hide Key;
  }

  /** Main result. Under "skip" the rules skipped are exactly those the preview flags, and the others are
      created, in order and under their own trimmed names. */
  lemma SkipIsThePreview(env: Env, lib: Lib, t: Tables, rules: seq<Export>, policy: string)
    requires WellKept(t) && FileErrors(env, lib, rules, 0) == [] && Skips(policy)
    ensures var r := ImportWithReport(env, lib, t, rules, policy); var flags := Preview(t, rules);
      && Names(r.tables.rules) == Names(t.rules) + Pick(rules, flags, false)
      && r.report.warnings == Pick(rules, flags, true)
      && !r.rejected
  {
    hide WellKept, FileErrors, ImportFrom, PreviewFrom, Pick, Names;
    assert rules[0..] == rules;
    SkipsFlagged(Progress(t, {}, NEW_REPORT), Keys(t.rules), {}, policy, rules, 0);
    Nothing(Pick(rules, Preview(t, rules), true));
  }

  // ----- "error" is not atomic -----

  lemma {:induction false} ErrorsImportTheRest(p: Progress, q: Progress, existing: set<string>, rules: seq<Export>,
                                               i: nat)
    requires i <= |rules| && p.tables == q.tables && p.seen == q.seen
    ensures var e := ImportFrom(p, existing, "error", rules, i); var s := ImportFrom(q, existing, "skip", rules, i);
      e.tables == s.tables && |e.report.errors| - |p.report.errors| == s.report.skipped - q.report.skipped
    decreases |rules| - i
  {
    hide Create, Trim, Lower, FreeName;
    if i >= |rules| {
    } else {
      ErrorsImportTheRest(ImportOne(p, existing, "error", rules[i], i), ImportOne(q, existing, "skip", rules[i], i),
                          existing, rules, i + 1);
    }
  }

  /** A finding. Under "error" a file with duplicates is reported as rejected, yet its other rules are created,
      just as under "skip". */
  lemma ErrorPolicyNotAtomic(env: Env, lib: Lib, t: Tables, rules: seq<Export>)
    requires FileErrors(env, lib, rules, 0) == []
    ensures var e := ImportWithReport(env, lib, t, rules, "error");
      var s := ImportWithReport(env, lib, t, rules, "skip");
      e.tables == s.tables && (e.rejected <==> s.report.skipped > 0)
  {
    hide FileErrors, ImportFrom;
    var p := Progress(t, {}, NEW_REPORT);
    ErrorsImportTheRest(p, p, Keys(t.rules), rules, 0);
  }

  lemma {:induction false} PickSome(rules: seq<Export>, flags: seq<bool>)
    requires |rules| == |flags|
    ensures Pick(rules, flags, false) == [] <==> forall k :: 0 <= k < |flags| ==> flags[k]
    decreases |rules|
  {
    if rules == [] {
    } else {
      PickSome(rules[1..], flags[1..]);
      Nothing(Pick(rules[1..], flags[1..], false));
      assert forall k :: 0 < k < |flags| ==> flags[k] == flags[1..][k - 1];
    }
  }

  /** A valid file under "error" leaves the rules alone exactly when the preview flags every rule in it. */
  lemma ErrorPolicySparesIff(env: Env, lib: Lib, t: Tables, rules: seq<Export>)
    requires WellKept(t) && FileErrors(env, lib, rules, 0) == []
    ensures ImportWithReport(env, lib, t, rules, "error").tables == t
       <==> forall k :: 0 <= k < |rules| ==> Preview(t, rules)[k]
  {
    hide WellKept, FileErrors, ImportFrom, PreviewFrom, Pick;
    ErrorPolicyNotAtomic(env, lib, t, rules);
    SkipIsThePreview(env, lib, t, rules, "skip");
    assert rules[0..] == rules;
    SkipsFlagged(Progress(t, {}, NEW_REPORT), Keys(t.rules), {}, "skip", rules, 0);
    PickSome(rules, Preview(t, rules));
    var s := ImportWithReport(env, lib, t, rules, "skip");
    if s.tables == t {
      assert |Names(s.tables.rules)| == |Names(t.rules)| + |Pick(rules, Preview(t, rules), false)|;
    }
  }
}
