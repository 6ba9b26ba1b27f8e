/** The loops of `PreviewImport` and `ImportWithReport`, which fill a set of names, a report and the tables. */
module ImportObjects {
  import opened Text
  import opened FreeNames
  import opened RuleStore
  import opened RuleExport
  import opened Engine
  import opened Validate
  import opened Seqs
  import opened Importing
  import opened RuleObjects

  method ExistingNames(repo: RulesRepo) returns (names: set<string>)
    ensures names == Keys(repo.rules)
  {
    names := {};
    for i := 0 to |repo.rules|
      invariant names == Keys(repo.rules[..i])
    {
      hide Key;
      MoreKeys(repo.rules, i);
      names := names + {Key(repo.rules[i].name)};
    }
    assert repo.rules[..|repo.rules|] == repo.rules;
  }

  lemma MoreKeys(rows: seq<RuleRow>, i: nat)
    requires i < |rows|
    ensures Keys(rows[..i + 1]) == Keys(rows[..i]) + {Key(rows[i].name)}
  {
    hide Key;
    assert rows[..i + 1] == rows[..i] + [rows[i]];
  }

  /** Search for a free name, counting up. */
  method Rename(taken: set<string>, base: string) returns (name: string)
    requires Lower(base) in taken
    ensures name == FreeName(taken, base)
  {
    hide Lower;
    CandidateKeysDiffer(base);
    ghost var keys := CandidateKeys(base);
    var n := 2;
    name := base;
    while Lower(name) in taken
      invariant n >= 2 && (if n == 2 then name == base else name == Candidate(base, n - 1))
      invariant FirstFree(taken, keys, 2) == if Lower(name) in taken then FirstFree(taken, keys, n) else n - 1
      decreases Ahead(taken, keys, n), if Lower(name) in taken then 1 else 0
    {
      if keys(n) in taken { SearchAdvances(taken, keys, n); }
      name := Candidate(base, n);
      n := n + 1;
    }
  }

  lemma PreviewStep(existing: set<string>, seen: set<string>, rules: seq<Export>, i: nat)
    requires i < |rules|
    ensures var key := Key(rules[i].name);
      PreviewFrom(existing, seen, rules[i..]) ==
      [key in existing || key in seen] + PreviewFrom(existing, seen + {key}, rules[i + 1..])
  {
    hide Key;
    assert rules[i..][1..] == rules[i + 1..];
  }

  method RuleProblems(env: Env, lib: Lib, re: Export, i: nat) returns (found: seq<RuleError>)
    ensures found == ErrorsOf(ValidateRuleExport(env, lib, re), i, re.name)
  {
    hide ValidateRuleExport;
    var problems := Check(env, lib, re);
    found := [];
    for k := 0 to |problems|
      invariant found == ErrorsOf(problems, i, re.name)[..k]
    {
      found := found + [RuleError(i, re.name, Invalid(problems[k]))];
    }
  }

  /** The names already taken, and the problems of the whole file. */
  method PreviewImport(env: Env, lib: Lib, repo: RulesRepo, rules: seq<Export>)
    returns (flags: seq<bool>, errors: seq<RuleError>)
    ensures flags == Preview(repo.State(), rules)
    ensures errors == FileErrors(env, lib, rules, 0)
  {
    hide Key, Keys, ValidateRuleExport, ErrorsOf;
    var existing := ExistingNames(repo);
    flags, errors := [], [];
    var seen: set<string> := {};
    for i := 0 to |rules|
      invariant flags + PreviewFrom(existing, seen, rules[i..]) == PreviewFrom(existing, {}, rules)
      invariant errors + FileErrors(env, lib, rules, i) == FileErrors(env, lib, rules, 0)
    {
      var found := RuleProblems(env, lib, rules[i], i);
      Concat(errors, found, FileErrors(env, lib, rules, i + 1));
      errors := errors + found;
      var key := Key(rules[i].name);
      var flag := key in existing || key in seen;
      PreviewStep(existing, seen, rules, i);
      hide PreviewFrom;
      Concat(flags, [flag], PreviewFrom(existing, seen + {key}, rules[i + 1..]));
      flags := flags + [flag];
      seen := seen + {key};
    }
    Nothing(flags);
    Nothing(errors);
  }

  /** The problems of the whole file. */
  method ValidateFile(env: Env, lib: Lib, rules: seq<Export>) returns (errors: seq<RuleError>)
    ensures errors == FileErrors(env, lib, rules, 0)
  {
    hide ValidateRuleExport, ErrorsOf;
    errors := [];
    for i := 0 to |rules|
      invariant errors + FileErrors(env, lib, rules, i) == FileErrors(env, lib, rules, 0)
    {
      var found := RuleProblems(env, lib, rules[i], i);
      Concat(errors, found, FileErrors(env, lib, rules, i + 1));
      errors := errors + found;
    }
    Nothing(errors);
  }

  /** The turn of the loop for one rule. */
  method ImportRule(repo: RulesRepo, existing: set<string>, seen: set<string>, policy: string, re: Export, i: nat,
                    report: ImportReport)
    returns (seen': set<string>, report': ImportReport)
    modifies repo
    ensures Progress(repo.State(), seen', report')
        == ImportOne(Progress(old(repo.State()), seen, report), existing, policy, re, i)
  {
    hide Create, ExportToRule, Trim, Lower, FreeName;
    seen', report' := seen, report;
    var name := Trim(re.name);
    var key := Lower(name);
    if key in existing || key in seen {
      if policy == "error" {
        report' := report.(errors := report.errors + [RuleError(i, name, DuplicateName)]);
        return;
      } else if policy == "rename" {
        name := Rename(existing + seen, name);
        key := Lower(name);
      } else {
        report' := report.(skipped := report.skipped + 1, warnings := report.warnings + [name]);
        return;
      }
    }
    var id := repo.Create(ExportToRule(re, name));
    seen' := seen + {key};
    report' := report.(imported := report.imported + 1);
  }

  method Import(env: Env, lib: Lib, repo: RulesRepo, rules: seq<Export>, policy: string)
    returns (report: ImportReport, rejected: bool)
    modifies repo
    ensures Imported(repo.State(), report, rejected) == ImportWithReport(env, lib, old(repo.State()), rules, policy)
  {
    hide FileErrors, ImportOne, Keys;
    var errors := ValidateFile(env, lib, rules);
    if |errors| > 0 { return NEW_REPORT.(errors := errors), true; }
    var existing := ExistingNames(repo);
    var seen: set<string> := {};
    report := NEW_REPORT;
    for i := 0 to |rules|
      invariant ImportFrom(Progress(repo.State(), seen, report), existing, policy, rules, i)
             == ImportFrom(Progress(old(repo.State()), {}, NEW_REPORT), existing, policy, rules, 0)
    {
      seen, report := ImportRule(repo, existing, seen, policy, rules[i], i, report);
    }
    rejected := policy == "error" && |report.errors| > 0;
  }
}
