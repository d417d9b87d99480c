/**
  The poll table as the pipeline sees it: one row per published poll, with its
  date as an integer day number and a cell per column.
 */
module Frames {
  import opened Wrappers

  /** One cell of the table: text as read, a whole number, a real, or missing (NaN/None). */
  datatype Cell = Text(text: string) | Int(n: int) | Num(value: real) | Missing

  /** A poll row: its parsed date (a day number) and its cells keyed by column name. */
  datatype Row = Row(date: int, cells: map<string, Cell>)

  /** The numeric value a cell holds, if any; missing and text cells hold none. */
  function Reading(c: Cell): (r: Option<real>)
    ensures r.Some? <==> c.Num? || c.Int?
    ensures c.Num? ==> r == Some(c.value)
    ensures c.Int? ==> r == Some(c.n as real)
  {
    match c
    case Num(v) => Some(v)
    case Int(n) => Some(n as real)
    case _ => None
  }

  /** A cell's contribution to a sum that skips missing values. */
  function ValueOrZero(c: Cell): real
  {
    match Reading(c)
    case Some(v) => v
    case None => 0.0
  }

  /** pandas `notna`: anything but a missing marker. */
  predicate NotNa(c: Cell)
  {
    !c.Missing?
  }

  /** The cell of `row` under `column`, or missing when the row has no such column. */
  function CellAt(row: Row, column: string): Cell
  {
    if column in row.cells then row.cells[column] else Missing
  }

  predicate SortedByDate(rows: seq<Row>)
  {
    forall i, j :: 0 <= i < j < |rows| ==> rows[i].date <= rows[j].date
  }

  /** Clock unit: microseconds, the resolution of a Python datetime. */
  const MicrosPerDay: int := 86_400_000_000

  /** `timedelta(days=3*365)`. */
  const WindowDays: int := 3 * 365

  /**
    `row.date >= now - timedelta(days=3*365)`: the row's date (midnight of its day)
    is on or after the instant three 365-day years before `now`; in days, at least
    1095 days before today when `now` is exactly midnight, 1094 at any later moment.
   */
  predicate WithinWindow(row: Row, now: int): (b: bool)
    ensures b <==> row.date >= now / MicrosPerDay - WindowDays + (if now % MicrosPerDay == 0 then 0 else 1)
  {
    WindowBoundary(row.date, now / MicrosPerDay, now % MicrosPerDay);
    row.date * MicrosPerDay >= now - WindowDays * MicrosPerDay
  }

  /**
    When `now` falls on day `day`, `micros` into it, the oldest day kept is
    `day - 1095` only at exactly midnight; at any later moment of the day it is `day - 1094`.
   */
  lemma WindowBoundary(date: int, day: int, micros: int)
    requires 0 <= micros < MicrosPerDay
    ensures date * MicrosPerDay >= day * MicrosPerDay + micros - WindowDays * MicrosPerDay
        <==> date >= day - WindowDays + (if micros == 0 then 0 else 1)
  {
    var d := date - (day - WindowDays);
    assert date * MicrosPerDay - (day * MicrosPerDay + micros - WindowDays * MicrosPerDay)
        == d * MicrosPerDay - micros;
    if d <= -1 {
      assert d * MicrosPerDay <= -MicrosPerDay;
    } else if d >= 1 {
      assert d * MicrosPerDay >= MicrosPerDay;
    }
  }

  /** The rows of `rows` for which `keep` holds, in their original order (a boolean mask). */
  function Where(rows: seq<Row>, keep: Row -> bool): (r: seq<Row>)
    ensures forall x :: x in r ==> keep(x)
    ensures forall x :: multiset(r)[x] == if keep(x) then multiset(rows)[x] else 0
    ensures |r| <= |rows|
  {
    if rows == [] then []
    else
      var rest := Where(rows[1..], keep);
      assert rows == [rows[0]] + rows[1..];
      if keep(rows[0]) then [rows[0]] + rest else rest
  }

  /** A row dated no later than every row of a sorted sequence can be put in front of it. */
  lemma PrependSorted(y: Row, rows: seq<Row>)
    requires SortedByDate(rows)
    requires forall k :: 0 <= k < |rows| ==> y.date <= rows[k].date
    ensures SortedByDate([y] + rows)
  {
    var r := [y] + rows;
    forall i, j | 0 <= i < j < |r| ensures r[i].date <= r[j].date {
      assert r[j] == rows[j - 1];
      if i > 0 {
        assert r[i] == rows[i - 1];
      }
    }
  }

  /** Rows made of `x` and the rows of `tail`, all dated `d` or later, are all dated `d` or later. */
  lemma LowerBound(d: int, x: Row, tail: seq<Row>, rest: seq<Row>)
    requires d <= x.date
    requires forall k :: 0 <= k < |tail| ==> d <= tail[k].date
    requires multiset(rest) == multiset(tail) + multiset{x}
    ensures forall k :: 0 <= k < |rest| ==> d <= rest[k].date
  {
    forall k | 0 <= k < |rest| ensures d <= rest[k].date {
      assert rest[k] in multiset(rest);
      if rest[k] != x {
        assert rest[k] in multiset(tail);
        var i :| 0 <= i < |tail| && tail[i] == rest[k];
      }
    }
  }

  /** Inserts `x` before the first row dated on or after it. */
  function InsertByDate(x: Row, rows: seq<Row>): (r: seq<Row>)
    requires SortedByDate(rows)
    ensures SortedByDate(r)
    ensures multiset(r) == multiset(rows) + multiset{x}
  {
    if rows == [] || x.date <= rows[0].date then
      PrependSorted(x, rows);
      [x] + rows
    else
      var tail := rows[1..];
      assert rows == [rows[0]] + tail;
      assert forall k :: 0 <= k < |tail| ==> rows[0].date <= tail[k].date by {
        forall k | 0 <= k < |tail| ensures rows[0].date <= tail[k].date {
          assert tail[k] == rows[k + 1];
        }
      }
      var rest := InsertByDate(x, tail);
      LowerBound(rows[0].date, x, tail, rest);
      PrependSorted(rows[0], rest);
      [rows[0]] + rest
  }

  /** `sort_values('date')`: a reordering of the rows that is non-decreasing by date. */
  function SortByDate(rows: seq<Row>): (r: seq<Row>)
    ensures SortedByDate(r)
    ensures multiset(r) == multiset(rows)
  {
    if rows == [] then []
    else
      assert rows == [rows[0]] + rows[1..];
      InsertByDate(rows[0], SortByDate(rows[1..]))
  }
}
