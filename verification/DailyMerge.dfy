/** save_symbol_data of backtest_collector.py: merging fetched daily rows into a symbol's file. */
module DailyMerge {
  import opened Prelude

  /** A row; rows whose date is missing or empty are dropped by the merge. */
  datatype Row = Row(date: Option<string>, body: string)

  predicate Dated(row: Row) { row.date.Some? && row.date.value != "" }

  function DateOf(row: Row): string { if row.date.Some? then row.date.value else "" }

  /** Python's order on strings. */
  predicate Before(a: string, b: string) {
    b != [] && (a == [] || a[0] < b[0] || (a[0] == b[0] && Before(a[1..], b[1..])))
  }

  /** The order of strings: a proper prefix comes first, and otherwise the string whose first
      differing character is lower. */
  lemma {:induction false} BeforeIsLexicographic(a: string, b: string)
    ensures Before(a, b) <==>
              || (|a| < |b| && a == b[..|a|])
              || exists k :: 0 <= k < |a| && k < |b| && a[..k] == b[..k] && a[k] < b[k]
  {
    if a != [] && b != [] && a[0] == b[0] {
      var p, q := a[1..], b[1..];
      BeforeIsLexicographic(p, q);
      SharedHead(a, b);
    } else if a != [] && b != [] && a[0] < b[0] {
      assert a[..0] == b[..0];
    }
  }

  /** Two strings with the same first character compare like their rests. */
  lemma SharedHead(a: string, b: string)
    requires a != [] && b != [] && a[0] == b[0]
    ensures (|a| < |b| && a == b[..|a|]) <==> (|a[1..]| < |b[1..]| && a[1..] == b[1..][..|a[1..]|])
    ensures (exists k :: 0 <= k < |a| && k < |b| && a[..k] == b[..k] && a[k] < b[k])
        <==> exists k :: 0 <= k < |a[1..]| && k < |b[1..]| && a[1..][..k] == b[1..][..k] && a[1..][k] < b[1..][k]
  {
    if |a| < |b| {
      assert a == [a[0]] + a[1..] && b[..|a|] == [b[0]] + b[1..][..|a[1..]|];
    }
    if k :| 0 <= k < |a| && k < |b| && a[..k] == b[..k] && a[k] < b[k] {
      assert k > 0;
      assert a[1..][..k - 1] == a[..k][1..] && b[1..][..k - 1] == b[..k][1..];
      assert a[1..][k - 1] < b[1..][k - 1];
    }
    if k :| 0 <= k < |a[1..]| && k < |b[1..]| && a[1..][..k] == b[1..][..k] && a[1..][k] < b[1..][k] {
      assert a[..k + 1] == [a[0]] + a[1..][..k] && b[..k + 1] == [b[0]] + b[1..][..k];
      assert a[k + 1] < b[k + 1];
    }
  }

  lemma {:induction false} BeforeTrichotomy(a: string, b: string)
    ensures Before(a, b) || a == b || Before(b, a)
    ensures !(Before(a, b) && Before(b, a)) && !(a == b && Before(a, b))
  {
    if a != [] && b != [] && a[0] == b[0] {
      BeforeTrichotomy(a[1..], b[1..]);
      assert a == [a[0]] + a[1..] && b == [b[0]] + b[1..];
    }
  }

  lemma {:induction false} BeforeTransitive(a: string, b: string, c: string)
    requires Before(a, b) && Before(b, c)
    ensures Before(a, c)
  {
    if a != [] && a[0] == b[0] == c[0] {
      BeforeTransitive(a[1..], b[1..], c[1..]);
    }
  }

  /** Strictly increasing in date, every row dated. */
  ghost predicate Increasing(rows: seq<Row>) {
    && (forall i :: 0 <= i < |rows| ==> Dated(rows[i]))
    && (forall i, j :: 0 <= i < j < |rows| ==> Before(DateOf(rows[i]), DateOf(rows[j])))
  }

  /** The first row of each date. */
  function ByDate(rows: seq<Row>): map<string, Row> {
    if rows == [] then map[]
    else
      var rest := ByDate(rows[1..]);
      if Dated(rows[0]) then rest[DateOf(rows[0]) := rows[0]] else rest
  }

  function Insert(row: Row, rows: seq<Row>): seq<Row> {
    if rows == [] || Before(DateOf(row), DateOf(rows[0])) then [row] + rows
    else [rows[0]] + Insert(row, rows[1..])
  }

  /** Rows taken in order, each date's first one kept, in date order. */
  function Collected(rows: seq<Row>): seq<Row> {
    if rows == [] then []
    else
      var init, row := Collected(rows[..|rows| - 1]), rows[|rows| - 1];
      if Dated(row) && DateOf(row) !in ByDate(init) then Insert(row, init) else init
  }

  /** What the file holds afterwards; an empty batch leaves it untouched. */
  function Merge(existing: seq<Row>, data: seq<Row>): seq<Row> {
    if data == [] then existing else Collected(existing + data)
  }

  // ---- Rows as a map from dates ----

  lemma {:induction false} ByDateAppend(a: seq<Row>, b: seq<Row>)
    ensures ByDate(a + b) == ByDate(b) + ByDate(a)
  {
    if a == [] {
      assert a + b == b;
    } else {
      assert (a + b)[1..] == a[1..] + b;
      ByDateAppend(a[1..], b);
    }
  }

  lemma {:induction false} ByDateKeys(rows: seq<Row>)
    ensures forall d :: d in ByDate(rows) ==>
              ByDate(rows)[d] in rows && Dated(ByDate(rows)[d]) && DateOf(ByDate(rows)[d]) == d
    ensures forall i :: 0 <= i < |rows| && Dated(rows[i]) ==> DateOf(rows[i]) in ByDate(rows)
  {
    if rows != [] {
      ByDateKeys(rows[1..]);
      assert forall i :: 0 < i < |rows| ==> rows[i] == rows[1..][i - 1];
    }
  }

  lemma IncreasingRest(rows: seq<Row>)
    requires Increasing(rows) && rows != []
    ensures Increasing(rows[1..])
  {
    assert forall i :: 0 <= i < |rows[1..]| ==> rows[1..][i] == rows[i + 1];
  }

  lemma {:induction false} InsertByDate(row: Row, rows: seq<Row>)
    requires Dated(row) && Increasing(rows) && DateOf(row) !in ByDate(rows)
    ensures ByDate(Insert(row, rows)) == ByDate(rows)[DateOf(row) := row]
    ensures forall r :: r in Insert(row, rows) ==> r == row || r in rows
  {
    if rows == [] || Before(DateOf(row), DateOf(rows[0])) {
      assert ([row] + rows)[1..] == rows;
    } else {
      var rest := Insert(row, rows[1..]);
      IncreasingRest(rows);
      InsertByDate(row, rows[1..]);
      assert ([rows[0]] + rest)[1..] == rest;
    }
  }

  lemma IncreasingCons(row: Row, rows: seq<Row>)
    requires Dated(row) && Increasing(rows)
    requires forall r :: r in rows ==> Before(DateOf(row), DateOf(r))
    ensures Increasing([row] + rows)
  {
  }

  lemma {:induction false} InsertIncreasing(row: Row, rows: seq<Row>)
    requires Dated(row) && Increasing(rows) && DateOf(row) !in ByDate(rows)
    ensures Increasing(Insert(row, rows))
  {
    if rows == [] {
    } else if Before(DateOf(row), DateOf(rows[0])) {
      forall j | 0 <= j < |rows| ensures Before(DateOf(row), DateOf(rows[j])) {
        if j > 0 {
          BeforeTransitive(DateOf(row), DateOf(rows[0]), DateOf(rows[j]));
        }
      }
      IncreasingCons(row, rows);
    } else {
      IncreasingRest(rows);
      InsertIncreasing(row, rows[1..]);
      InsertByDate(row, rows[1..]);
      BeforeTrichotomy(DateOf(row), DateOf(rows[0]));
      assert forall r :: r in rows[1..] ==> Before(DateOf(rows[0]), DateOf(r));
      IncreasingCons(rows[0], Insert(row, rows[1..]));
    }
  }

  lemma {:induction false} CollectedSpec(rows: seq<Row>)
    ensures Increasing(Collected(rows)) && ByDate(Collected(rows)) == ByDate(rows)
  {
    if rows != [] {
      var init, row := rows[..|rows| - 1], rows[|rows| - 1];
      CollectedSpec(init);
      ByDateAppend(init, [row]);
      assert init + [row] == rows;
      assert ByDate([row]) == if Dated(row) then map[DateOf(row) := row] else map[];
      if Dated(row) && DateOf(row) !in ByDate(Collected(init)) {
        InsertByDate(row, Collected(init));
        InsertIncreasing(row, Collected(init));
      }
    }
  }

  /** A date-ordered list is determined by its map. */
  lemma {:induction false} OrderedListIsUnique(a: seq<Row>, b: seq<Row>)
    requires Increasing(a) && Increasing(b) && ByDate(a) == ByDate(b)
    ensures a == b
  {
    ByDateKeys(a);
    ByDateKeys(b);
    assert a != [] ==> Dated(a[0]) && DateOf(a[0]) in ByDate(a);
    assert b != [] ==> Dated(b[0]) && DateOf(b[0]) in ByDate(b);
    if a != [] && b != [] {
      HeadIsLeast(a, b);
      HeadIsLeast(b, a);
      BeforeTrichotomy(DateOf(a[0]), DateOf(b[0]));
      assert a[0] == ByDate(a)[DateOf(a[0])] && b[0] == ByDate(b)[DateOf(b[0])];
      TailByDate(a);
      TailByDate(b);
      IncreasingRest(a);
      IncreasingRest(b);
      OrderedListIsUnique(a[1..], b[1..]);
      assert a == [a[0]] + a[1..] && b == [b[0]] + b[1..];
    }
  }

  lemma HeadIsLeast(a: seq<Row>, b: seq<Row>)
    requires a != [] && b != [] && Increasing(a) && Increasing(b) && DateOf(b[0]) in ByDate(a)
    ensures !Before(DateOf(b[0]), DateOf(a[0]))
  {
    ByDateKeys(a);
    var row := ByDate(a)[DateOf(b[0])];
    var i :| 0 <= i < |a| && a[i] == row;
    BeforeTrichotomy(DateOf(a[0]), DateOf(row));
  }

  lemma HeadDateIsNew(rows: seq<Row>)
    requires rows != [] && Increasing(rows)
    ensures DateOf(rows[0]) !in ByDate(rows[1..])
  {
    ByDateKeys(rows[1..]);
    if DateOf(rows[0]) in ByDate(rows[1..]) {
      var i :| 0 <= i < |rows[1..]| && rows[1..][i] == ByDate(rows[1..])[DateOf(rows[0])];
      BeforeTrichotomy(DateOf(rows[0]), DateOf(rows[i + 1]));
    }
  }

  lemma TailByDate(rows: seq<Row>)
    requires rows != [] && Increasing(rows)
    ensures ByDate(rows[1..]) == ByDate(rows) - {DateOf(rows[0])}
  {
    HeadDateIsNew(rows);
  }

  // ---- What the merge promises ----

  /** A non-empty batch leaves the file strictly increasing in date, with exactly the dates of
      both, and no existing row replaced. */
  lemma MergeIsLeftBiasedUnion(existing: seq<Row>, data: seq<Row>)
    requires data != []
    ensures Increasing(Merge(existing, data))
    ensures ByDate(Merge(existing, data)) == ByDate(data) + ByDate(existing)
  {
    CollectedSpec(existing + data);
    ByDateAppend(existing, data);
  }

  /** Row for row: the file holds exactly the dated rows of both that are the first of their date,
      the existing ones counting first. */
  lemma FileHoldsFirstRows(existing: seq<Row>, data: seq<Row>, row: Row)
    requires data != []
    ensures var all := existing + data;
            row in Merge(existing, data) <==>
              row.date != None && row.date != Some("") && exists k :: IsFirst(all, row, k)
  {
    var all := existing + data;
    CollectedSpec(all);
    ByDateKeys(Collected(all));
    FirstRows(all, row);
    if row in Merge(existing, data) {
      IncreasingHasOneRow(Collected(all), row);
    }
  }

  /** In a list strictly increasing in date a row is the one of its date. */
  lemma {:induction false} IncreasingHasOneRow(rows: seq<Row>, row: Row)
    requires Increasing(rows) && row in rows
    ensures Dated(row) && DateOf(row) in ByDate(rows) && ByDate(rows)[DateOf(row)] == row
  {
    if row != rows[0] {
      IncreasingRest(rows);
      IncreasingHasOneRow(rows[1..], row);
      HeadDateIsNew(rows);
    }
  }

  /** A row is the one kept for its date exactly if it is the first dated row of that date. */
  lemma {:induction false} FirstRows(rows: seq<Row>, row: Row)
    ensures (DateOf(row) in ByDate(rows) && ByDate(rows)[DateOf(row)] == row) <==>
              row.date != None && row.date != Some("") && exists k :: IsFirst(rows, row, k)
  {
    if rows != [] {
      FirstRows(rows[1..], row);
      FirstOfRest(rows, row);
      ByDateKeys(rows);
    }
  }

  ghost predicate IsFirst(rows: seq<Row>, row: Row, k: nat) {
    k < |rows| && rows[k] == row && forall j :: 0 <= j < k ==> rows[j].date != row.date
  }

  /** Being first in a list: at its head, or first in the rest under another head. */
  lemma FirstOfRest(rows: seq<Row>, row: Row)
    requires rows != []
    ensures (exists k :: IsFirst(rows, row, k)) <==>
              rows[0] == row || (rows[0].date != row.date && exists k :: IsFirst(rows[1..], row, k))
  {
    if rows[0] == row {
      assert IsFirst(rows, row, 0);
    }
    if k: nat :| IsFirst(rows, row, k) && rows[0] != row {
      assert k > 0 && rows[0].date != row.date;
      assert IsFirst(rows[1..], row, k - 1);
    }
    if rows[0].date != row.date {
      if k: nat :| IsFirst(rows[1..], row, k) {
        assert IsFirst(rows, row, k + 1);
      }
    }
  }

  lemma PlusAssociates(a: map<string, Row>, b: map<string, Row>, c: map<string, Row>)
    ensures a + (b + c) == (a + b) + c
  {
  }

  /** Merging a, then b, is merging a + b. */
  lemma MergeInStages(existing: seq<Row>, a: seq<Row>, b: seq<Row>)
    ensures Merge(Merge(existing, a), b) == Merge(existing, a + b)
  {
    if a == [] {
      assert a + b == b;
    } else if b == [] {
      assert a + b == a;
    } else {
      MergeIsLeftBiasedUnion(existing, a);
      MergeIsLeftBiasedUnion(Merge(existing, a), b);
      MergeIsLeftBiasedUnion(existing, a + b);
      ByDateAppend(a, b);
      PlusAssociates(ByDate(b), ByDate(a), ByDate(existing));
      OrderedListIsUnique(Merge(Merge(existing, a), b), Merge(existing, a + b));
    }
  }

  /** Merging the same batch again changes nothing. */
  lemma MergeAgainIsMergeOnce(existing: seq<Row>, data: seq<Row>)
    ensures Merge(Merge(existing, data), data) == Merge(existing, data)
  {
    if data != [] {
      MergeIsLeftBiasedUnion(existing, data);
      MergeIsLeftBiasedUnion(Merge(existing, data), data);
      assert ByDate(data) + (ByDate(data) + ByDate(existing)) == ByDate(data) + ByDate(existing);
      OrderedListIsUnique(Merge(Merge(existing, data), data), Merge(existing, data));
    }
  }

  // ---- The function itself ----

  /** The dedupe loop, then the sort, as an insertion of each kept row. */
  method SaveSymbolData(existing: seq<Row>, data: seq<Row>) returns (file: seq<Row>)
    ensures file == Merge(existing, data)
    ensures data == [] ==> file == existing
  {
    if data == [] {
      return existing;
    }
    var all := existing + data;
    var seen: set<string> := {};
    var unique: seq<Row> := [];
    for k := 0 to |all|
      invariant seen == ByDate(unique).Keys && Kept(unique, all, k)
    {
      var item := all[k];
      DedupeStep(all, k, unique);
      if Dated(item) && DateOf(item) !in seen {
        seen := seen + {DateOf(item)};
        unique := unique + [item];
      }
    }
    assert all[..|all|] == all;
    file := SortByDate(unique);
    CollectedSpec(all);
    OrderedListIsUnique(file, Collected(all));
  }

  /** The rows kept so far, by date and with distinct dates. */
  ghost predicate Kept(unique: seq<Row>, all: seq<Row>, k: nat)
    requires k <= |all|
  {
    && ByDate(unique) == ByDate(all[..k])
    && (forall i :: 0 <= i < |unique| ==> Dated(unique[i]))
    && (forall i, j :: 0 <= i < j < |unique| ==> DateOf(unique[i]) != DateOf(unique[j]))
  }

  /** The next row is kept exactly if it is dated and its date is new. */
  lemma DedupeStep(all: seq<Row>, k: nat, unique: seq<Row>)
    requires k < |all| && Kept(unique, all, k)
    ensures var isNew := Dated(all[k]) && DateOf(all[k]) !in ByDate(unique);
            var next := if isNew then unique + [all[k]] else unique;
            && Kept(next, all, k + 1)
            && ByDate(next).Keys == ByDate(unique).Keys + (if isNew then {DateOf(all[k])} else {})
  {
    assert all[..k + 1] == all[..k] + [all[k]];
    ByDateSnoc(all[..k], all[k]);
    ByDateSnoc(unique, all[k]);
    if DateOf(all[k]) !in ByDate(unique) {
      DistinctSnoc(unique, all[k]);
    }
  }

  lemma DistinctSnoc(rows: seq<Row>, row: Row)
    requires forall i :: 0 <= i < |rows| ==> Dated(rows[i])
    requires DateOf(row) !in ByDate(rows)
    ensures forall i :: 0 <= i < |rows| ==> DateOf(rows[i]) != DateOf(row)
  {
    ByDateKeys(rows);
  }

  lemma ByDateSnoc(rows: seq<Row>, row: Row)
    ensures ByDate(rows + [row])
         == if Dated(row) && DateOf(row) !in ByDate(rows) then ByDate(rows)[DateOf(row) := row] else ByDate(rows)
  {
    ByDateAppend(rows, [row]);
    OneByDate(row);
  }

  lemma OneByDate(row: Row)
    ensures ByDate([row]) == if Dated(row) then map[DateOf(row) := row] else map[]
  {
  }

  lemma NewDate(rows: seq<Row>, k: nat)
    requires k < |rows| && Dated(rows[k])
    requires forall i :: 0 <= i < k ==> DateOf(rows[i]) != DateOf(rows[k])
    ensures DateOf(rows[k]) !in ByDate(rows[..k])
    ensures ByDate(rows[..k + 1]) == ByDate(rows[..k])[DateOf(rows[k]) := rows[k]]
  {
    assert rows[..k + 1] == rows[..k] + [rows[k]];
    ByDateAppend(rows[..k], [rows[k]]);
    ByDateKeys(rows[..k]);
    assert ByDate([rows[k]]) == map[DateOf(rows[k]) := rows[k]];
  }

  method SortByDate(rows: seq<Row>) returns (sorted: seq<Row>)
    requires forall i :: 0 <= i < |rows| ==> Dated(rows[i])
    requires forall i, j :: 0 <= i < j < |rows| ==> DateOf(rows[i]) != DateOf(rows[j])
    ensures Increasing(sorted) && ByDate(sorted) == ByDate(rows)
  {
    sorted := [];
    for k := 0 to |rows|
      invariant Increasing(sorted) && ByDate(sorted) == ByDate(rows[..k])
    {
      NewDate(rows, k);
      InsertByDate(rows[k], sorted);
      InsertIncreasing(rows[k], sorted);
      sorted := Insert(rows[k], sorted);
    }
    assert rows[..|rows|] == rows;
  }
}
