/** ORDER BY: the rows of a query, sorted by a strict order. */
module Ordering {
  ghost predicate Transitive<T(!new)>(before: (T, T) -> bool) {
    forall a, b, c :: before(a, b) && before(b, c) ==> before(a, c)
  }

  /** Any two rows, in whatever places, are in order one way or the other. */
  ghost predicate Total<T>(before: (T, T) -> bool, rows: seq<T>) {
    forall i, j :: 0 <= i < j < |rows| ==> before(rows[i], rows[j]) || before(rows[j], rows[i])
  }

  ghost predicate SortedBy<T>(before: (T, T) -> bool, rows: seq<T>) {
    forall i, j :: 0 <= i < j < |rows| ==> before(rows[i], rows[j])
  }

  function InsertBy<T>(before: (T, T) -> bool, row: T, sorted: seq<T>): seq<T> {
    if sorted == [] || before(row, sorted[0]) then [row] + sorted
    else [sorted[0]] + InsertBy(before, row, sorted[1..])
  }

  function SortBy<T>(before: (T, T) -> bool, rows: seq<T>): seq<T> {
    if rows == [] then [] else InsertBy(before, rows[0], SortBy(before, rows[1..]))
  }

  lemma {:induction false} InsertKeeps<T>(before: (T, T) -> bool, row: T, sorted: seq<T>)
    ensures multiset(InsertBy(before, row, sorted)) == multiset{row} + multiset(sorted)
  {
    if sorted == [] || before(row, sorted[0]) {
    } else {
      InsertKeeps(before, row, sorted[1..]);
      assert sorted == [sorted[0]] + sorted[1..];
    }
  }

  lemma {:induction false} SortKeeps<T>(before: (T, T) -> bool, rows: seq<T>)
    ensures multiset(SortBy(before, rows)) == multiset(rows)
  {
    if rows == [] {
    } else {
      SortKeeps(before, rows[1..]);
      InsertKeeps(before, rows[0], SortBy(before, rows[1..]));
      assert rows == [rows[0]] + rows[1..];
    }
  }

  /** Sorting adds nothing and leaves nothing out. */
  lemma SortMembers<T>(before: (T, T) -> bool, rows: seq<T>)
    ensures |SortBy(before, rows)| == |rows| && forall r :: r in SortBy(before, rows) <==> r in rows
  {
    SortKeeps(before, rows);
    assert |multiset(SortBy(before, rows))| == |multiset(rows)|;
    forall r ensures r in SortBy(before, rows) <==> r in rows {
      assert r in multiset(SortBy(before, rows)) <==> r in multiset(rows);
    }
  }

  lemma {:induction false} InsertSorts<T(!new)>(before: (T, T) -> bool, row: T, sorted: seq<T>)
    requires Transitive(before) && SortedBy(before, sorted)
    requires forall r <- sorted :: before(row, r) || before(r, row)
    ensures SortedBy(before, InsertBy(before, row, sorted))
  {
    if sorted == [] {
    } else if before(row, sorted[0]) {
      forall j | 0 < j < |sorted| ensures before(row, sorted[j]) {
        assert before(sorted[0], sorted[j]);
      }
    } else {
      InsertSorts(before, row, sorted[1..]);
      InsertKeeps(before, row, sorted[1..]);
      var rest := InsertBy(before, row, sorted[1..]);
      forall j | 0 <= j < |rest| ensures before(sorted[0], rest[j]) {
        assert rest[j] in multiset(rest);
        assert rest[j] == row || rest[j] in sorted[1..];
      }
    }
  }

  lemma {:induction false} SortSorts<T(!new)>(before: (T, T) -> bool, rows: seq<T>)
    requires Transitive(before) && Total(before, rows)
    ensures SortedBy(before, SortBy(before, rows))
  {
    if rows == [] {
    } else {
      SortSorts(before, rows[1..]);
      SortMembers(before, rows[1..]);
      hide Transitive, SortBy, InsertBy;
      forall r | r in rows[1..] ensures before(rows[0], r) || before(r, rows[0]) {
        var j :| 0 <= j < |rows[1..]| && rows[1..][j] == r;
        assert r == rows[j + 1];
      }
      InsertSorts(before, rows[0], SortBy(before, rows[1..]));
      SortFirst(before, rows);
    }
  }

  lemma SortFirst<T>(before: (T, T) -> bool, rows: seq<T>)
    requires rows != []
    ensures SortBy(before, rows) == InsertBy(before, rows[0], SortBy(before, rows[1..]))
  {
  }
}
