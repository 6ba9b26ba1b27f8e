/** The search for an unused "name (n)" that import and migration share. */
module FreeNames {
  import opened Text

  function Candidate(base: string, n: nat): string {
    base + " (" + Decimal(n) + ")"
  }

  lemma CandidatesDiffer(base: string, m: nat, n: nat)
    requires Candidate(base, m) == Candidate(base, n)
    ensures m == n
  {
    var stem := base + " (";
    var s, t := stem + Decimal(m) + ")", stem + Decimal(n) + ")";
    assert s == t && |Decimal(m)| == |Decimal(n)|;
    assert s[|stem|..|s| - 1] == Decimal(m) && t[|stem|..|t| - 1] == Decimal(n);
    DecimalInjective(m, n);
  }

  ghost predicate Injective(key: nat -> string) {
    forall m, n :: key(m) == key(n) ==> m == n
  }

  /** The taken keys a search from n on can still run into. */
  ghost function Ahead(taken: set<string>, key: nat -> string, n: nat): set<string> {
    set k | k in taken && exists m: nat :: n <= m && k == key(m)
  }

  lemma SearchAdvances(taken: set<string>, key: nat -> string, n: nat)
    requires Injective(key) && key(n) in taken
    ensures Ahead(taken, key, n + 1) < Ahead(taken, key, n)
  {
    assert key(n) in Ahead(taken, key, n);
    assert key(n) !in Ahead(taken, key, n + 1);
  }

  /** The first number from n on whose key is free; counting up always reaches one. */
  function FirstFree(taken: set<string>, key: nat -> string, n: nat): (m: nat)
    requires Injective(key)
    ensures n <= m && key(m) !in taken && forall k :: n <= k < m ==> key(k) in taken
    decreases Ahead(taken, key, n)
  {
    if key(n) !in taken then n
    else
      SearchAdvances(taken, key, n);
      FirstFree(taken, key, n + 1)
  }
}
