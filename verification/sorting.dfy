/** `daily.sort((a, b) => a.date.localeCompare(b.date))`. Dates are
    `YYYY-MM-DD` keys, whose string order is the order of the days they name,
    so rows are ordered here by their day index. */
module Sorting {
  import opened Vitals

  predicate Ascending(rows: seq<DailyMetrics>)
  {
    forall i, j :: 0 <= i < j < |rows| ==> rows[i].date <= rows[j].date
  }

  predicate DistinctDates(rows: seq<DailyMetrics>)
  {
    forall i, j :: 0 <= i < j < |rows| ==> rows[i].date != rows[j].date
  }

  /** `row` placed before the first row with a later date. */
  function Insert(row: DailyMetrics, rows: seq<DailyMetrics>): (r: seq<DailyMetrics>)
    requires Ascending(rows)
    ensures Ascending(r)
    ensures multiset(r) == multiset(rows) + multiset{row}
    ensures |r| == |rows| + 1
    // the new first row is the earlier of `row` and the old first row
    ensures r[0] == if |rows| == 0 || row.date <= rows[0].date then row else rows[0]
  {
    if |rows| == 0 then [row]
    else if row.date <= rows[0].date then [row] + rows
    else
      var tail := Insert(row, rows[1..]);
      assert rows == [rows[0]] + rows[1..];
      assert rows[0].date <= tail[0].date;
      ConsAscending(rows[0], tail);
      assert multiset([rows[0]] + tail) == multiset{rows[0]} + multiset(tail);
      [rows[0]] + tail
  }

  /** A row no later than the head of an ascending run can go in front of it. */
  lemma ConsAscending(x: DailyMetrics, rows: seq<DailyMetrics>)
    requires Ascending(rows) && (|rows| > 0 ==> x.date <= rows[0].date)
    ensures Ascending([x] + rows)
  {
    var r := [x] + rows;
    forall i, j | 0 <= i < j < |r| ensures r[i].date <= r[j].date {
      assert r[j] == rows[j - 1];
      if i > 0 { assert r[i] == rows[i - 1]; } else if j > 1 { assert rows[0].date <= rows[j - 1].date; }
    }
  }

  /** The rows in ascending date order: a permutation of the input. */
  function SortByDate(rows: seq<DailyMetrics>): (r: seq<DailyMetrics>)
    ensures Ascending(r)
    ensures multiset(r) == multiset(rows)
    ensures |r| == |rows|
  {
    if |rows| == 0 then []
    else
      assert rows == [rows[0]] + rows[1..];
      Insert(rows[0], SortByDate(rows[1..]))
  }

  /** With distinct dates, the sorted rows strictly ascend. */
  lemma SortedStrictly(rows: seq<DailyMetrics>)
    requires DistinctDates(rows)
    ensures forall i, j :: 0 <= i < j < |SortByDate(rows)| ==> SortByDate(rows)[i].date < SortByDate(rows)[j].date
  {
    var r := SortByDate(rows);
    forall i, j | 0 <= i < j < |r|
      ensures r[i].date < r[j].date
    {
      assert r[i] in multiset(rows) && r[j] in multiset(rows);
      if r[i].date == r[j].date {
        assert r[i] in rows && r[j] in rows;
        var a :| 0 <= a < |rows| && rows[a] == r[i];
        var b :| 0 <= b < |rows| && rows[b] == r[j];
        if a == b {
          DuplicateInSorted(r, i, j);
          assert multiset(rows)[rows[a]] >= 2;
          MultiplicityOne(rows, a);
          assert false;
        }
      }
    }
  }

  /** Two positions holding the same row count it twice. */
  lemma DuplicateInSorted(r: seq<DailyMetrics>, i: int, j: int)
    requires 0 <= i < j < |r| && r[i] == r[j]
    ensures multiset(r)[r[i]] >= 2
  {
    var x := r[i];
    assert r == r[..i] + [r[i]] + r[i + 1..];
    var rest := r[i + 1..];
    assert rest[j - i - 1] == x;
    assert x in multiset(rest);
    assert multiset(r) == multiset(r[..i]) + multiset{x} + multiset(rest);
  }

  /** In rows with distinct dates every row occurs once. */
  lemma MultiplicityOne(rows: seq<DailyMetrics>, a: int)
    requires DistinctDates(rows) && 0 <= a < |rows|
    ensures multiset(rows)[rows[a]] == 1
  {
    var x := rows[a];
    assert rows == rows[..a] + [x] + rows[a + 1..];
    assert x !in rows[..a] by {
      forall k | 0 <= k < a ensures rows[..a][k] != x { assert rows[..a][k] == rows[k]; }
    }
    var after := rows[a + 1..];
    assert x !in after by {
      forall k | 0 <= k < |after| ensures after[k] != x { assert after[k] == rows[a + 1 + k]; }
    }
    assert multiset(rows) == multiset(rows[..a]) + multiset{x} + multiset(rows[a + 1..]);
  }
}
