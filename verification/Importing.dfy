/** Import of portable rules with its duplicate policies (internal/db/ruleexport.go). */
module Importing {
  import opened Text
  import opened FreeNames
  import opened RuleStore
  import opened RuleExport
  import opened Engine
  import opened Validate

  /** Names are compared trimmed and in lower case. */
  function Key(name: string): string {
    Lower(Trim(name))
  }

  function Keys(rows: seq<RuleRow>): set<string> {
    set r | r in rows :: Key(r.name)
  }

  // ----- a free name -----

  lemma LowerConcat(a: string, b: string)
    ensures Lower(a + b) == Lower(a) + Lower(b)
  {
  }

  lemma LowerDigits(d: string)
    requires forall c <- d :: IsDigit(c)
    ensures Lower(d) == d
  {
    forall i | 0 <= i < |d| ensures Lower(d)[i] == d[i] {
      assert d[i] in d;
    }
  }

  lemma LowerCandidate(base: string, n: nat)
    ensures Lower(Candidate(base, n)) == Candidate(Lower(base), n)
  {
    var d := Decimal(n);
    LowerConcat(base + " (" + d, ")");
    LowerConcat(base + " (", d);
    LowerConcat(base, " (");
    LowerDigits(d);
    assert Lower(" (") == " (" && Lower(")") == ")";
  }

  /** The keys of the candidates for one name. */
  function CandidateKeys(base: string): nat -> string {
    (n: nat) => Lower(Candidate(base, n))
  }

  lemma CandidateKeysDiffer(base: string)
    ensures Injective(CandidateKeys(base))
  {
    forall m, n | CandidateKeys(base)(m) == CandidateKeys(base)(n) ensures m == n {
      LowerCandidate(base, m);
      LowerCandidate(base, n);
      CandidatesDiffer(Lower(base), m, n);
    }
  }

  /** The numbers from 2 up to this one are in use behind the name. */
  ghost predicate LowerUsed(taken: set<string>, base: string, m: nat) {
    forall k: nat :: 2 <= k < m ==> Lower(base + " (" + Decimal(k) + ")") in taken
  }

  function FreeName(taken: set<string>, base: string): (name: string)
    ensures Lower(name) !in taken
    ensures exists m: nat :: 2 <= m && name == base + " (" + Decimal(m) + ")" && LowerUsed(taken, base, m)
  {
    CandidateKeysDiffer(base);
    var m := FirstFree(taken, CandidateKeys(base), 2);
    assert LowerUsed(taken, base, m) by {
      forall k: nat | 2 <= k < m ensures Lower(base + " (" + Decimal(k) + ")") in taken {
        assert CandidateKeys(base)(k) in taken;
      }
    }
    Candidate(base, m)
  }

  // ----- the import -----

  datatype Failure = Invalid(problem: Problem) | DuplicateName

  datatype RuleError = RuleError(index: nat, name: string, failure: Failure)

  datatype ImportReport = ImportReport(imported: nat, skipped: nat, warnings: seq<string>, errors: seq<RuleError>)

  const NEW_REPORT := ImportReport(0, 0, [], [])

  datatype Progress = Progress(tables: Tables, seen: set<string>, report: ImportReport)

  /** One turn of the loop. */
  function ImportOne(p: Progress, existing: set<string>, policy: string, re: Export, i: nat): Progress {
    var name := Trim(re.name);
    var taken := existing + p.seen;
    if Lower(name) in taken && policy == "error" then
      p.(report := p.report.(errors := p.report.errors + [RuleError(i, name, DuplicateName)]))
    else if Lower(name) in taken && policy != "rename" then
      p.(report := p.report.(skipped := p.report.skipped + 1, warnings := p.report.warnings + [name]))
    else
      var free := if Lower(name) in taken then FreeName(taken, name) else name;
      Progress(Create(p.tables, ExportToRule(re, free)), p.seen + {Lower(free)},
               p.report.(imported := p.report.imported + 1))
  }

  function ImportFrom(p: Progress, existing: set<string>, policy: string, rules: seq<Export>, i: nat): Progress
    requires i <= |rules|
    decreases |rules| - i
  {
    if i == |rules| then p else ImportFrom(ImportOne(p, existing, policy, rules[i], i), existing, policy, rules, i + 1)
  }

  function ErrorsOf(problems: seq<Problem>, i: nat, name: string): seq<RuleError> {
    seq(|problems|, k requires 0 <= k < |problems| => RuleError(i, name, Invalid(problems[k])))
  }

  /** The problems of the whole file, rule by rule. */
  function FileErrors(env: Env, lib: Lib, rules: seq<Export>, i: nat): seq<RuleError>
    requires i <= |rules|
    decreases |rules| - i
  {
    if i == |rules| then []
    else ErrorsOf(ValidateRuleExport(env, lib, rules[i]), i, rules[i].name) + FileErrors(env, lib, rules, i + 1)
  }

  datatype Imported = Imported(tables: Tables, report: ImportReport, rejected: bool)

  /** `ImportWithReport`, once the file is parsed. */
  function ImportWithReport(env: Env, lib: Lib, t: Tables, rules: seq<Export>, policy: string): Imported {
    var errors := FileErrors(env, lib, rules, 0);
    if errors != [] then Imported(t, NEW_REPORT.(errors := errors), true)
    else
      var p := ImportFrom(Progress(t, {}, NEW_REPORT), Keys(t.rules), policy, rules, 0);
      Imported(p.tables, p.report, policy == "error" && p.report.errors != [])
  }

  /** `PreviewImport`'s flags: an existing name, or one seen earlier in the file. */
  function PreviewFrom(existing: set<string>, seen: set<string>, rules: seq<Export>): (flags: seq<bool>)
    ensures |flags| == |rules|
    decreases |rules|
  {
    if rules == [] then []
    else
      var key := Key(rules[0].name);
      [key in existing || key in seen] + PreviewFrom(existing, seen + {key}, rules[1..])
  }

  function Preview(t: Tables, rules: seq<Export>): (flags: seq<bool>)
    ensures |flags| == |rules|
  {
    PreviewFrom(Keys(t.rules), {}, rules)
  }
}
