/** `ensureUniqueRuleNames` of internal/db/migrate.go: afterwards no two rules share a name. */
module UniqueNames {
  import opened Text
  import opened FreeNames
  import opened Ordering
  import opened RuleStore

  // ----- the duplicated rows, ORDER BY name, id -----

  predicate NameBefore(a: RuleRow, b: RuleRow) {
    Less(a.name, b.name) || (a.name == b.name && a.id < b.id)
  }

  function CountName(rows: seq<RuleRow>, name: string): nat {
    if rows == [] then 0 else (if rows[0].name == name then 1 else 0) + CountName(rows[1..], name)
  }

  /** The rows of `list` whose name occurs more than once in the table. */
  function Repeated(table: seq<RuleRow>, list: seq<RuleRow>): seq<RuleRow> {
    if list == [] then []
    else (if CountName(table, list[0].name) > 1 then [list[0]] else []) + Repeated(table, list[1..])
  }

  function Duplicates(rows: seq<RuleRow>): seq<RuleRow> {
    Repeated(rows, SortBy(NameBefore, rows))
  }

  // ----- the renaming -----

  function NamesOf(rows: seq<RuleRow>): set<string> {
    set r | r in rows :: r.name
  }

  function Candidates(base: string): nat -> string {
    (n: nat) => Candidate(base, n)
  }

  lemma CandidatesInjective(base: string)
    ensures Injective(Candidates(base))
  {
    forall m, n | Candidates(base)(m) == Candidates(base)(n) ensures m == n {
      CandidatesDiffer(base, m, n);
    }
  }

  function UnusedName(rows: seq<RuleRow>, base: string): (name: string)
    ensures name !in NamesOf(rows)
    ensures exists m: nat :: 2 <= m && name == Candidate(base, m) && LowerTaken(rows, base, m)
  {
    CandidatesInjective(base);
    var m := FirstFree(NamesOf(rows), Candidates(base), 2);
    assert LowerTaken(rows, base, m) by {
      forall k: nat | 2 <= k < m ensures base + " (" + Decimal(k) + ")" in NamesOf(rows) {
        assert Candidates(base)(k) in NamesOf(rows);
      }
    }
    Candidate(base, m)
  }

  /** All lower numbers are in use. */
  ghost predicate LowerTaken(rows: seq<RuleRow>, base: string, m: nat) {
    forall k: nat :: 2 <= k < m ==> base + " (" + Decimal(k) + ")" in NamesOf(rows)
  }

  function RenameRow(rows: seq<RuleRow>, id: int, name: string): (r: seq<RuleRow>)
    ensures |r| == |rows| && forall i ::
      0 <= i < |rows| ==> r[i] == if rows[i].id == id then rows[i].(name := name) else rows[i]
  {
    if rows == [] then []
    else [if rows[0].id == id then rows[0].(name := name) else rows[0]] + RenameRow(rows[1..], id, name)
  }

  /** The loop over the duplicated rows: the first of each name keeps it. */
  function Settle(rows: seq<RuleRow>, dups: seq<RuleRow>, kept: set<string>): seq<RuleRow>
    decreases |dups|
  {
    if dups == [] then rows
    else if dups[0].name !in kept then Settle(rows, dups[1..], kept + {dups[0].name})
    else Settle(RenameRow(rows, dups[0].id, UnusedName(rows, dups[0].name)), dups[1..], kept)
  }

  function EnsureUniqueNames(rows: seq<RuleRow>): seq<RuleRow> {
    Settle(rows, Duplicates(rows), {})
  }

  // ----- the order of names -----

  lemma {:induction false} LessTransitive(a: string, b: string, c: string)
    requires Less(a, b) && Less(b, c)
    ensures Less(a, c)
    decreases |a|
  {
    if a != "" && a[0] == b[0] == c[0] { LessTransitive(a[1..], b[1..], c[1..]); }
  }

  lemma {:induction false} LessTotal(a: string, b: string)
    ensures Less(a, b) || Less(b, a) || a == b
    decreases |a|
  {
    if a != "" && b != "" && a[0] == b[0] {
      LessTotal(a[1..], b[1..]);
      assert a == [a[0]] + a[1..] && b == [b[0]] + b[1..];
    }
  }

  lemma {:induction false} NotLessSelf(a: string)
    ensures !Less(a, a)
    decreases |a|
  {
    if a == "" {
    } else {
      NotLessSelf(a[1..]);
    }
  }

  lemma NamesOrdered(rows: seq<RuleRow>)
    requires DistinctIds(rows)
    ensures Transitive(NameBefore) && Total(NameBefore, rows)
  {
    forall a, b, c | NameBefore(a, b) && NameBefore(b, c) ensures NameBefore(a, c) {
      if Less(a.name, b.name) && Less(b.name, c.name) { LessTransitive(a.name, b.name, c.name); }
    }
    forall i, j | 0 <= i < j < |rows| ensures NameBefore(rows[i], rows[j]) || NameBefore(rows[j], rows[i]) {
      LessTotal(rows[i].name, rows[j].name);
    }
  }

  lemma {:induction false} RepeatedMeaning(table: seq<RuleRow>, list: seq<RuleRow>)
    ensures forall r :: r in Repeated(table, list) <==> r in list && CountName(table, r.name) > 1
    ensures SortedBy(NameBefore, list) ==> SortedBy(NameBefore, Repeated(table, list))
  {
    hide NameBefore, CountName;
    if list == [] {
    } else {
      RepeatedMeaning(table, list[1..]);
      assert list == [list[0]] + list[1..];
      var rest := Repeated(table, list[1..]);
      if SortedBy(NameBefore, list) {
        forall j | 0 <= j < |rest| ensures NameBefore(list[0], rest[j]) {
          assert rest[j] in rest;
          var k :| 0 <= k < |list[1..]| && list[1..][k] == rest[j];
          assert rest[j] == list[k + 1];
        }
      }
    }
  }

  lemma {:induction false} CountedTwice(rows: seq<RuleRow>, name: string, i: nat, j: nat)
    requires i < j < |rows| && rows[i].name == rows[j].name == name
    ensures CountName(rows, name) > 1
  {
    if i == 0 {
      CountedOnce(rows[1..], name, j - 1);
    } else {
      CountedTwice(rows[1..], name, i - 1, j - 1);
    }
  }

  lemma {:induction false} CountedOnce(rows: seq<RuleRow>, name: string, j: nat)
    requires j < |rows| && rows[j].name == name
    ensures CountName(rows, name) > 0
  {
    if j == 0 {
    } else {
      CountedOnce(rows[1..], name, j - 1);
    }
  }

  // ----- what holds all along -----

  /** Row i has the lowest id of its name. */
  ghost predicate First(rows: seq<RuleRow>, i: nat)
    requires i < |rows|
  {
    forall j :: 0 <= j < |rows| && rows[j].name == rows[i].name ==> rows[i].id <= rows[j].id
  }

  /** The table on its way from `rows` to unique names: everything but names stands, first rows keep theirs, the
      other rows still waiting do too, and the rest have new names. */
  ghost predicate OnTheWay(rows: seq<RuleRow>, now: seq<RuleRow>, dups: seq<RuleRow>) {
    && |now| == |rows|
    && (forall i :: 0 <= i < |rows| ==> now[i] == rows[i].(name := now[i].name))
    && (forall i :: 0 <= i < |rows| && (First(rows, i) || rows[i] in dups) ==> now[i].name == rows[i].name)
    && (forall i :: 0 <= i < |rows| && !First(rows, i) && rows[i] !in dups
                    ==> exists m: nat :: 2 <= m && now[i].name == Candidate(rows[i].name, m))
  }

  ghost predicate Waiting(rows: seq<RuleRow>, dups: seq<RuleRow>, i: nat)
    requires i < |rows|
  {
    !First(rows, i) && rows[i] in dups
  }

  ghost predicate SettledDistinct(rows: seq<RuleRow>, now: seq<RuleRow>, dups: seq<RuleRow>) {
    && |now| == |rows|
    && forall i, j :: 0 <= i < j < |rows| && !Waiting(rows, dups, i) && !Waiting(rows, dups, j)
         ==> now[i].name != now[j].name
  }

  /** A number was given out only when all lower ones were in use, and they still are. */
  ghost predicate Gapless(rows: seq<RuleRow>, now: seq<RuleRow>, dups: seq<RuleRow>) {
    && |now| == |rows|
    && forall i, m: nat ::
      0 <= i < |rows| && !First(rows, i) && rows[i] !in dups && now[i].name == Candidate(rows[i].name, m)
      ==> LowerTaken(now, rows[i].name, m)
  }

  /** Which names are kept: those whose first row has had its turn. */
  ghost predicate Kept(rows: seq<RuleRow>, dups: seq<RuleRow>, kept: set<string>) {
    && (forall i :: 0 <= i < |rows| && First(rows, i) && rows[i] in dups ==> rows[i].name !in kept)
    && (forall i :: 0 <= i < |rows| && rows[i].name !in kept && CountName(rows, rows[i].name) > 1 ==> rows[i] in dups)
  }

  ghost predicate Queue(rows: seq<RuleRow>, dups: seq<RuleRow>) {
    && SortedBy(NameBefore, dups)
    && forall d <- dups :: d in rows && CountName(rows, d.name) > 1
  }

  lemma QueueTail(rows: seq<RuleRow>, dups: seq<RuleRow>)
    requires Queue(rows, dups) && dups != []
    ensures Queue(rows, dups[1..]) && dups[0] !in dups[1..]
    ensures forall d <- dups[1..] :: d.name == dups[0].name ==> dups[0].id < d.id
  {
    hide CountName;
    forall d | d in dups[1..] ensures d != dups[0] && (d.name == dups[0].name ==> dups[0].id < d.id) {
      var k :| 0 <= k < |dups[1..]| && dups[1..][k] == d;
      assert NameBefore(dups[0], dups[k + 1]);
      NotLessSelf(d.name);
    }
  }

  /** The head of the queue keeps its name exactly when it is the first of it. */
  lemma HeadFirstIff(rows: seq<RuleRow>, dups: seq<RuleRow>, kept: set<string>, i: nat)
    requires DistinctIds(rows) && Queue(rows, dups) && dups != [] && Kept(rows, dups, kept) && i < |rows|
        && rows[i] == dups[0]
    ensures First(rows, i) <==> dups[0].name !in kept
  {
    QueueTail(rows, dups);
    hide CountName, NameBefore;
    assert dups == [dups[0]] + dups[1..];
    if !First(rows, i) {
      var j :| 0 <= j < |rows| && rows[j].name == rows[i].name && rows[j].id < rows[i].id;
      assert rows[j] !in dups;
    }
  }

  lemma FirstsDiffer(rows: seq<RuleRow>, i: nat, j: nat)
    requires DistinctIds(rows) && i < |rows| && j < |rows| && i != j && First(rows, i) && First(rows, j)
    ensures rows[i].name != rows[j].name
  {
  }

  lemma KeepsFirst(rows: seq<RuleRow>, dups: seq<RuleRow>, kept: set<string>, i: nat)
    requires DistinctIds(rows) && Queue(rows, dups) && dups != [] && Kept(rows, dups, kept) && i < |rows|
        && rows[i] == dups[0]
    requires First(rows, i)
    ensures Kept(rows, dups[1..], kept + {dups[0].name})
  {
    QueueTail(rows, dups);
    hide CountName, NameBefore;
    assert dups == [dups[0]] + dups[1..];
    forall k | 0 <= k < |rows| && First(rows, k) && rows[k] in dups[1..]
      ensures rows[k].name !in kept + {dups[0].name}
    {
      assert rows[k] in dups;
      FirstsDiffer(rows, i, k);
    }
  }

  lemma KeepsRest(rows: seq<RuleRow>, dups: seq<RuleRow>, kept: set<string>)
    requires Queue(rows, dups) && dups != [] && Kept(rows, dups, kept) && dups[0].name in kept
    ensures Kept(rows, dups[1..], kept)
  {
    hide CountName, NameBefore, First;
    assert dups == [dups[0]] + dups[1..];
  }

  lemma SkipHead(rows: seq<RuleRow>, now: seq<RuleRow>, dups: seq<RuleRow>, i: nat)
    requires OnTheWay(rows, now, dups) && SettledDistinct(rows, now, dups) && dups != [] && dups[0] !in dups[1..]
    requires DistinctIds(rows) && i < |rows| && rows[i] == dups[0] && First(rows, i) && Gapless(rows, now, dups)
    ensures OnTheWay(rows, now, dups[1..]) && SettledDistinct(rows, now, dups[1..]) && Gapless(rows, now, dups[1..])
  {
    hide First, Candidate, LowerTaken;
    assert dups == [dups[0]] + dups[1..];
    forall k | 0 <= k < |rows| && k != i ensures rows[k] in dups <==> rows[k] in dups[1..] {}
  }

  /** Only row i is renamed, and it leaves the queue. */
  ghost predicate HeadRenamed(rows: seq<RuleRow>, now: seq<RuleRow>, next: seq<RuleRow>, dups: seq<RuleRow>, i: nat,
                              name: string) {
    && |next| == |now| == |rows| && dups != []
    && (forall k :: 0 <= k < |rows| ==> next[k] == if k == i then now[k].(name := name) else now[k])
    && (forall k :: 0 <= k < |rows| ==> (rows[k] in dups[1..] <==> k != i && rows[k] in dups))
  }

  lemma HeadIsRenamed(rows: seq<RuleRow>, now: seq<RuleRow>, dups: seq<RuleRow>, i: nat, name: string)
    requires OnTheWay(rows, now, dups) && dups != [] && dups[0] !in dups[1..]
    requires DistinctIds(rows) && i < |rows| && rows[i] == dups[0]
    ensures HeadRenamed(rows, now, RenameRow(now, dups[0].id, name), dups, i, name)
  {
    hide First, Candidate;
    assert dups == [dups[0]] + dups[1..];
    forall k | 0 <= k < |rows|
      ensures now[k].id == rows[k].id && (k != i ==> rows[k] != dups[0] && rows[k].id != dups[0].id)
    {
    }
  }

  lemma RenameStaysOnTheWay(rows: seq<RuleRow>, now: seq<RuleRow>, next: seq<RuleRow>, dups: seq<RuleRow>, i: nat,
                            name: string, m: nat)
    requires OnTheWay(rows, now, dups) && HeadRenamed(rows, now, next, dups, i, name)
    requires i < |rows| && rows[i] == dups[0] && !First(rows, i) && 2 <= m && name == Candidate(dups[0].name, m)
    ensures OnTheWay(rows, next, dups[1..])
  {
    hide First, Candidate;
  }

  lemma RenameStaysDistinct(rows: seq<RuleRow>, now: seq<RuleRow>, next: seq<RuleRow>, dups: seq<RuleRow>, i: nat,
                            name: string)
    requires SettledDistinct(rows, now, dups) && HeadRenamed(rows, now, next, dups, i, name)
    requires i < |rows| && name !in NamesOf(now)
    ensures SettledDistinct(rows, next, dups[1..])
  {
    hide First;
    forall k | 0 <= k < |rows| ensures now[k].name != name {
      assert now[k] in now;
    }
  }

  /** Some row is the first of each name. */
  lemma {:induction false} FirstExists(rows: seq<RuleRow>, n: nat, i: nat) returns (j: nat)
    requires i < n <= |rows|
    ensures j < n && rows[j].name == rows[i].name
    ensures forall k :: 0 <= k < n && rows[k].name == rows[i].name ==> rows[j].id <= rows[k].id
    decreases n
  {
    if i < n - 1 {
      j := FirstExists(rows, n - 1, i);
      if rows[n - 1].name == rows[i].name && rows[n - 1].id < rows[j].id { j := n - 1; }
    } else if k :| 0 <= k < n - 1 && rows[k].name == rows[i].name {
      j := FirstExists(rows, n - 1, k);
      if rows[i].id < rows[j].id { j := i; }
    } else {
      j := i;
    }
  }

  /** No name goes out of use: the first row has it still. */
  lemma NamesStay(rows: seq<RuleRow>, now: seq<RuleRow>, next: seq<RuleRow>, dups: seq<RuleRow>, i: nat, name: string)
    requires OnTheWay(rows, now, dups) && HeadRenamed(rows, now, next, dups, i, name)
    requires i < |rows| && rows[i] == dups[0] && !First(rows, i)
    ensures NamesOf(now) <= NamesOf(next)
  {
    var j := FirstExists(rows, |rows|, i);
    assert First(rows, j);
    hide First;
    assert next[j] in next && next[j].name == rows[i].name;
    forall r | r in now ensures r.name in NamesOf(next) {
      var k :| 0 <= k < |now| && now[k] == r;
      assert next[k] in next;
    }
  }

  lemma RenameStaysGapless(rows: seq<RuleRow>, now: seq<RuleRow>, next: seq<RuleRow>, dups: seq<RuleRow>, i: nat,
                           name: string, m: nat)
    requires Gapless(rows, now, dups) && HeadRenamed(rows, now, next, dups, i, name) && NamesOf(now) <= NamesOf(next)
    requires i < |rows| && rows[i] == dups[0] && name == Candidate(dups[0].name, m) && LowerTaken(now, dups[0].name, m)
    ensures Gapless(rows, next, dups[1..])
  {
    hide First, Candidate;
    forall j, n: nat | 0 <= j < |rows| && !First(rows, j) && rows[j] !in dups[1..]
                       && next[j].name == Candidate(rows[j].name, n)
      ensures LowerTaken(next, rows[j].name, n)
    {
      if j == i { CandidatesDiffer(dups[0].name, m, n); }
    }
  }

  lemma RenameHead(rows: seq<RuleRow>, now: seq<RuleRow>, dups: seq<RuleRow>, i: nat, name: string, m: nat)
    requires OnTheWay(rows, now, dups) && SettledDistinct(rows, now, dups) && dups != [] && dups[0] !in dups[1..]
    requires DistinctIds(rows) && i < |rows| && rows[i] == dups[0] && !First(rows, i)
    requires name !in NamesOf(now) && 2 <= m && name == Candidate(dups[0].name, m)
    requires Gapless(rows, now, dups) && LowerTaken(now, dups[0].name, m)
    ensures var next := RenameRow(now, dups[0].id, name);
      OnTheWay(rows, next, dups[1..]) && SettledDistinct(rows, next, dups[1..]) && Gapless(rows, next, dups[1..])
  {
    hide *;
    var next := RenameRow(now, dups[0].id, name);
    HeadIsRenamed(rows, now, dups, i, name);
    RenameStaysOnTheWay(rows, now, next, dups, i, name, m);
    RenameStaysDistinct(rows, now, next, dups, i, name);
    NamesStay(rows, now, next, dups, i, name);
    RenameStaysGapless(rows, now, next, dups, i, name, m);
  }

  lemma {:induction false} SettleKeeps(rows: seq<RuleRow>, now: seq<RuleRow>, dups: seq<RuleRow>, kept: set<string>)
    requires DistinctIds(rows) && Queue(rows, dups) && Kept(rows, dups, kept)
    requires OnTheWay(rows, now, dups) && SettledDistinct(rows, now, dups) && Gapless(rows, now, dups)
    ensures OnTheWay(rows, Settle(now, dups, kept), []) && SettledDistinct(rows, Settle(now, dups, kept), [])
    ensures Gapless(rows, Settle(now, dups, kept), [])
    decreases |dups|
  {
    if dups == [] {
    } else {
      QueueTail(rows, dups);
      var i :| 0 <= i < |rows| && rows[i] == dups[0];
      HeadFirstIff(rows, dups, kept, i);
      hide Queue, Kept, OnTheWay, SettledDistinct, First, DistinctIds, Gapless, LowerTaken;
      if dups[0].name !in kept {
        KeepsFirst(rows, dups, kept, i);
        SkipHead(rows, now, dups, i);
        SettleKeeps(rows, now, dups[1..], kept + {dups[0].name});
      } else {
        KeepsRest(rows, dups, kept);
        var name := UnusedName(now, dups[0].name);
        var m: nat :| 2 <= m && name == Candidate(dups[0].name, m) && LowerTaken(now, dups[0].name, m);
        RenameHead(rows, now, dups, i, name, m);
        SettleKeeps(rows, RenameRow(now, dups[0].id, name), dups[1..], kept);
      }
    }
  }

  /** Rows that share a name are both in the queue. */
  ghost predicate SharedAreQueued(rows: seq<RuleRow>, dups: seq<RuleRow>) {
    forall i, j :: 0 <= i < |rows| && 0 <= j < |rows| && i != j && rows[i].name == rows[j].name ==> rows[i] in dups
  }

  lemma TheQueue(rows: seq<RuleRow>)
    requires DistinctIds(rows)
    ensures var dups := Duplicates(rows); Queue(rows, dups) && Kept(rows, dups, {}) && SharedAreQueued(rows, dups)
  {
    var dups := Duplicates(rows);
    NamesOrdered(rows);
    SortMembers(NameBefore, rows);
    SortSorts(NameBefore, rows);
    RepeatedMeaning(rows, SortBy(NameBefore, rows));
    hide NameBefore, SortBy, Repeated, CountName, First, Transitive, Total;
    forall i, j | 0 <= i < |rows| && 0 <= j < |rows| && i != j && rows[i].name == rows[j].name ensures rows[i] in dups {
      CountedTwice(rows, rows[i].name, if i < j then i else j, if i < j then j else i);
      assert rows[i] in rows;
    }
  }

  lemma Beginning(rows: seq<RuleRow>, dups: seq<RuleRow>)
    requires DistinctIds(rows) && SharedAreQueued(rows, dups)
    ensures OnTheWay(rows, rows, dups) && SettledDistinct(rows, rows, dups) && Gapless(rows, rows, dups)
  {
    hide Candidate;
    forall i | 0 <= i < |rows| && rows[i] !in dups ensures First(rows, i) {}
    hide SharedAreQueued;
    forall i, j | 0 <= i < j < |rows| && !Waiting(rows, dups, i) && !Waiting(rows, dups, j)
      ensures rows[i].name != rows[j].name
    {
      FirstsDiffer(rows, i, j);
    }
  }

  /** Main result. Afterwards all names differ; only names have changed; the lowest id of each name keeps it, so
      that a rule that was no duplicate is unchanged; and every other rule has its name with a number, and no lower
      number is left unused. */
  lemma UniqueNamesMeaning(rows: seq<RuleRow>)
    requires DistinctIds(rows)
    ensures var r := EnsureUniqueNames(rows);
      && |r| == |rows|
      && (forall i, j :: 0 <= i < j < |r| ==> r[i].name != r[j].name)
      && (forall i :: 0 <= i < |rows| ==> r[i] == rows[i].(name := r[i].name))
      && (forall i :: 0 <= i < |rows| && First(rows, i) ==> r[i] == rows[i])
      && (forall i ::
          0 <= i < |rows| && !First(rows, i) ==>
            exists m: nat :: 2 <= m && r[i].name == rows[i].name + " (" + Decimal(m) + ")"
                             && LowerTaken(r, rows[i].name, m))
  {
    TheQueue(rows);
    Beginning(rows, Duplicates(rows));
    SettleKeeps(rows, rows, Duplicates(rows), {});
    hide Settle, Duplicates, First;
    var r := EnsureUniqueNames(rows);
    forall i | 0 <= i < |rows| && !First(rows, i)
      ensures exists m: nat :: 2 <= m && r[i].name == rows[i].name + " (" + Decimal(m) + ")"
                               && LowerTaken(r, rows[i].name, m)
    {
      var m: nat :| 2 <= m && r[i].name == Candidate(rows[i].name, m);
      assert LowerTaken(r, rows[i].name, m);
    }
  }

  // ----- the loops -----

  method FindName(rows: seq<RuleRow>, name: string) returns (n: nat)
    ensures n > 0 <==> name in NamesOf(rows)
  {
    n := 0;
    for i := 0 to |rows|
      invariant n > 0 <==> exists k :: 0 <= k < i && rows[k].name == name
    {
      if rows[i].name == name { n := n + 1; }
    }
  }

  method Migrate(rows: seq<RuleRow>) returns (table: seq<RuleRow>)
    ensures table == EnsureUniqueNames(rows)
  {
    hide Less, Candidate;
    var dups := Duplicates(rows);
    var kept: set<string> := {};
    table := rows;
    for k := 0 to |dups|
      invariant Settle(table, dups[k..], kept) == EnsureUniqueNames(rows)
    {
      assert dups[k..][1..] == dups[k + 1..];
      var r := dups[k];
      if r.name !in kept {
        kept := kept + {r.name};
        continue;
      }
      CandidatesInjective(r.name);
      ghost var keys := Candidates(r.name);
      var i := 2;
      var candidate := Candidate(r.name, i);
      var n := FindName(table, candidate);
      while n != 0
        invariant i >= 2 && candidate == Candidate(r.name, i) && (n > 0 <==> candidate in NamesOf(table))
        invariant FirstFree(NamesOf(table), keys, i) == FirstFree(NamesOf(table), keys, 2)
        decreases Ahead(NamesOf(table), keys, i)
      {
        SearchAdvances(NamesOf(table), keys, i);
        i := i + 1;
        candidate := Candidate(r.name, i);
        n := FindName(table, candidate);
      }
      table := RenameRow(table, r.id, candidate);
    }
  }
}
