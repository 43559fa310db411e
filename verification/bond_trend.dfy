/** The monthly completion series of a bond. */
module BondTrend {
  import opened Prelude
  import opened Text
  import opened BondReport

  const MONTHS := 12

  /** Months are numbered from January of year 0. */
  type Month = int

  /** `Date.UTC(year, month, 1)`: months overflow into years, and years 0 to 99 mean 1900 to 1999. */
  function UtcMonth(year: int, month: int): Month {
    (if 0 <= year <= 99 then 1900 + year else year) * MONTHS + month
  }

  function IntText(n: int): string {
    if n >= 0 then Decimal(n) else ['-'] + Decimal(-n)
  }

  function MonthText(month: nat): string
    requires month < MONTHS
  {
    if month + 1 < 10 then ['0'] + Decimal(month + 1) else Decimal(month + 1)
  }

  function MonthKey(m: Month): string {
    IntText(m / MONTHS) + ['-'] + MonthText(m % MONTHS)
  }

  lemma IntTextsDiffer(a: int, b: int)
    requires IntText(a) == IntText(b)
    ensures a == b
  {
    DecimalRoundTrip(if a >= 0 then a else -a);
    DecimalRoundTrip(if b >= 0 then b else -b);
    if a < 0 && b < 0 {
      assert IntText(a)[1..] == Decimal(-a) && IntText(b)[1..] == Decimal(-b);
    } else {
      assert a >= 0 ==> IsDigit(IntText(a)[0]);
      assert b >= 0 ==> IsDigit(IntText(b)[0]);
    }
  }

  lemma MonthTextIsTwo(month: nat)
    requires month < MONTHS
    ensures |MonthText(month)| == 2 && IsDigit(MonthText(month)[0]) && IsDigit(MonthText(month)[1])
    ensures DecimalValue(MonthText(month)) == month + 1
  {
    var d := Decimal(month + 1);
    if month + 1 < 10 {
      assert MonthText(month)[..1] == ['0'] && ['0'][..0] == [];
      DecimalRoundTrip(month + 1);
      assert DecimalValue(['0']) == 0;
    } else {
      assert |Decimal((month + 1) / 10)| == 1;
      DecimalRoundTrip(month + 1);
    }
  }

  /** A key is the year in decimal, a dash, and the month of the year from 1 in two digits. */
  lemma MonthKeySpellsMonth(year: nat, month: nat)
    requires month < 12
    ensures var key := MonthKey(year * 12 + month);
            && |key| > 3 && key[|key| - 3] == '-'
            && (forall i :: 0 <= i < |key| && i != |key| - 3 ==> IsDigit(key[i]))
            && DecimalValue(key[..|key| - 3]) == year && (year > 0 ==> key[0] != '0')
            && DecimalValue(key[|key| - 2..]) == month + 1
  {
    hide Decimal;
    hide DecimalValue;
    hide MonthText;
    var m := year * 12 + month;
    assert m / MONTHS == year && m % MONTHS == month;
    MonthTextIsTwo(month);
    DecimalRoundTrip(year);
    var key := MonthKey(m);
    assert key == Decimal(year) + ['-'] + MonthText(month);
    hide MonthKey;
    KeyParts(Decimal(year), MonthText(month));
  }

  /** Digits, a dash and two more digits, taken apart again. */
  lemma KeyParts(year: string, month: string)
    requires |year| >= 1 && |month| == 2
    requires forall i :: 0 <= i < |year| ==> IsDigit(year[i])
    requires IsDigit(month[0]) && IsDigit(month[1])
    ensures var key := year + ['-'] + month;
            && |key| > 3 && key[|key| - 3] == '-' && key[..|key| - 3] == year && key[|key| - 2..] == month
            && (forall i :: 0 <= i < |key| && i != |key| - 3 ==> IsDigit(key[i]))
            && key[0] == year[0]
  {
    var key := year + ['-'] + month;
    forall i | 0 <= i < |key| && i != |key| - 3
      ensures IsDigit(key[i])
    {
      assert key[i] == if i < |year| then year[i] else month[i - |year| - 1];
    }
  }

  /** Different months have different keys. */
  lemma MonthKeysDiffer(a: Month, b: Month)
    requires MonthKey(a) == MonthKey(b)
    ensures a == b
  {
    hide IntText, MonthText;
    MonthTextIsTwo(a % MONTHS);
    MonthTextIsTwo(b % MONTHS);
    var (ya, yb) := (IntText(a / MONTHS) + ['-'], IntText(b / MONTHS) + ['-']);
    assert |ya| == |yb|;
    CutEqual(ya, MonthText(a % MONTHS), yb, MonthText(b % MONTHS));
    CutEqual(IntText(a / MONTHS), ['-'], IntText(b / MONTHS), ['-']);
    IntTextsDiffer(a / MONTHS, b / MONTHS);
  }

  // ---------------------------------------------------------------- the series

  datatype TrendRow = TrendRow(month: string, total: nat, completed: nat)

  datatype Point = Point(month: string, total: nat, rate: int)

  /** The row a `Map` built from the rows holds for a key: the last one. */
  function Lookup(rows: seq<TrendRow>, key: string): TrendRow {
    if rows == [] then TrendRow(key, 0, 0)
    else if rows[|rows| - 1].month == key then rows[|rows| - 1]
    else Lookup(rows[..|rows| - 1], key)
  }

  function PointAt(rows: seq<TrendRow>, m: Month): Point {
    var row := Lookup(rows, MonthKey(m));
    Point(MonthKey(m), row.total, Percentage(row.completed, row.total))
  }

  method BuildBondTrend(rows: seq<TrendRow>, months: int, year: int, month: int) returns (series: seq<Point>)
    requires 0 <= month < MONTHS
    ensures |series| == Max(months, 0)
    ensures forall k :: 0 <= k < |series| ==> series[k] == PointAt(rows, UtcMonth(year, month) - (months - 1) + k)
  {
    hide MonthKey;
    hide Percentage;
    var byMonth: map<string, TrendRow> := map[];
    for i := 0 to |rows|
      invariant forall key :: key in byMonth ==> byMonth[key] == Lookup(rows[..i], key)
      invariant forall key :: key !in byMonth ==> Lookup(rows[..i], key) == TrendRow(key, 0, 0)
    {
      assert rows[..i + 1][..i] == rows[..i];
      byMonth := byMonth[rows[i].month := rows[i]];
    }
    assert rows[..|rows|] == rows;
    hide Lookup;
    series := [];
    var offset := months - 1;
    while offset >= 0
      invariant offset >= -1 || offset == months - 1
      invariant |series| == months - 1 - offset
      invariant forall k :: 0 <= k < |series| ==> series[k] == PointAt(rows, UtcMonth(year, month) - (months - 1) + k)
    {
      var cursor := UtcMonth(year, month - offset);
      var key := MonthKey(cursor);
      var total := if key in byMonth then byMonth[key].total else 0;
      var completed := if key in byMonth then byMonth[key].completed else 0;
      series := series + [Point(key, total, Percentage(completed, total))];
      offset := offset - 1;
    }
  }

  ghost predicate IsTrend(series: seq<Point>, rows: seq<TrendRow>, months: nat, year: int, month: int) {
    && |series| == months
    && forall k :: 0 <= k < months ==> series[k] == PointAt(rows, UtcMonth(year, month) - (months - 1) + k)
  }

  /** The series ends at the reference month, unless `Date.UTC` takes its year for one of the 1900s. */
  lemma TrendEndsAtReference(series: seq<Point>, rows: seq<TrendRow>, months: nat, year: int, month: int)
    requires 0 <= month < MONTHS && months > 0
    requires IsTrend(series, rows, months, year, month)
    ensures series[months - 1].month == MonthKey(year * 12 + month) <==> !(0 <= year <= 99)
    ensures 0 <= year <= 99 ==> series[months - 1].month == MonthKey((1900 + year) * 12 + month)
  {
    hide MonthKey;
    var last := UtcMonth(year, month);
    assert series[months - 1] == PointAt(rows, last - (months - 1) + (months - 1));
    assert series[months - 1].month == MonthKey(last);
    if 0 <= year <= 99 && MonthKey(last) == MonthKey(year * MONTHS + month) {
      MonthKeysDiffer(last, year * MONTHS + month);
    }
  }

  /** No month appears twice, and each point is the month after the one before it. */
  lemma TrendMonthsAreDistinct(series: seq<Point>, rows: seq<TrendRow>, months: nat, year: int, month: int, i: nat,
                               j: nat)
    requires IsTrend(series, rows, months, year, month) && i < months && j < months
    ensures series[i].month == series[j].month <==> i == j
  {
    hide MonthKey;
    var first := UtcMonth(year, month) - (months - 1);
    assert series[i] == PointAt(rows, first + i) && series[j] == PointAt(rows, first + j);
    if series[i].month == series[j].month {
      MonthKeysDiffer(first + i, first + j);
    }
  }

  // ---------------------------------------------------------------- conservation

  function Total(series: seq<Point>): nat {
    if series == [] then 0 else Total(series[..|series| - 1]) + series[|series| - 1].total
  }

  /** The activities of the rows whose month is in the window `[from, to)`. */
  function InWindow(rows: seq<TrendRow>, from: Month, to: Month): nat {
    if rows == [] then 0
    else InWindow(rows[..|rows| - 1], from, to)
         + if exists m :: from <= m < to && MonthKey(m) == rows[|rows| - 1].month then rows[|rows| - 1].total else 0
  }

  ghost predicate DistinctMonths(rows: seq<TrendRow>) {
    forall i, j :: 0 <= i < j < |rows| ==> rows[i].month != rows[j].month
  }

  lemma {:induction false} EmptyWindow(rows: seq<TrendRow>, from: Month)
    ensures InWindow(rows, from, from) == 0
  {
    if rows != [] {
      EmptyWindow(rows[..|rows| - 1], from);
    }
  }

  lemma {:induction false} AbsentMonth(rows: seq<TrendRow>, key: string)
    requires forall i :: 0 <= i < |rows| ==> rows[i].month != key
    ensures Lookup(rows, key) == TrendRow(key, 0, 0)
  {
    if rows != [] {
      AbsentMonth(rows[..|rows| - 1], key);
    }
  }

  /** One more month adds the row of that month. */
  lemma {:induction false} WindowGrows(rows: seq<TrendRow>, from: Month, to: Month)
    requires from <= to && DistinctMonths(rows)
    ensures InWindow(rows, from, to + 1) == InWindow(rows, from, to) + Lookup(rows, MonthKey(to)).total
  {
    hide MonthKey;
    if rows != [] {
      var init, last := rows[..|rows| - 1], rows[|rows| - 1];
      WindowGrows(init, from, to);
      if last.month == MonthKey(to) {
        AbsentMonth(init, MonthKey(to));
        if m :| from <= m < to && MonthKey(m) == last.month {
          MonthKeysDiffer(m, to);
        }
        assert from <= to < to + 1 && MonthKey(to) == last.month;
      } else {
        if m :| from <= m < to && MonthKey(m) == last.month {
          assert from <= m < to + 1;
        }
      }
    }
  }

  lemma {:induction false} TotalIsInWindow(series: seq<Point>, rows: seq<TrendRow>, from: Month)
    requires DistinctMonths(rows)
    requires forall k :: 0 <= k < |series| ==> series[k] == PointAt(rows, from + k)
    ensures Total(series) == InWindow(rows, from, from + |series|)
  {
    hide MonthKey, InWindow;
    if series == [] {
      EmptyWindow(rows, from);
    } else {
      var n := |series| - 1;
      TotalIsInWindow(series[..n], rows, from);
      WindowGrows(rows, from, from + n);
    }
  }

  /** The series counts every activity of the in-window rows once. */
  lemma TrendSumsWindowRows(series: seq<Point>, rows: seq<TrendRow>, months: nat, year: int, month: int)
    requires IsTrend(series, rows, months, year, month) && DistinctMonths(rows)
    ensures Total(series) == InWindow(rows, UtcMonth(year, month) - (months - 1), UtcMonth(year, month) + 1)
  {
    hide MonthKey, InWindow, Total, PointAt, UtcMonth;
    TotalIsInWindow(series, rows, UtcMonth(year, month) - (months - 1));
  }

  // ---------------------------------------------------------------- from the table

  datatype DatedActivity = DatedActivity(month: Month, completed: bool)

  function CountBetween(table: seq<DatedActivity>, from: Month, to: Month): nat {
    if table == [] then 0
    else CountBetween(table[..|table| - 1], from, to) + if from <= table[|table| - 1].month < to then 1 else 0
  }

  function CompletedIn(table: seq<DatedActivity>, m: Month): nat {
    if table == [] then 0
    else CompletedIn(table[..|table| - 1], m)
         + if table[|table| - 1].month == m && table[|table| - 1].completed then 1 else 0
  }

  /** `trendByMonth`: one row per month of the window that has activities. */
  ghost predicate GroupedByMonth(rows: seq<TrendRow>, table: seq<DatedActivity>, from: Month, to: Month) {
    && DistinctMonths(rows)
    && (forall row :: row in rows ==> exists m :: from <= m < to && IsRowOf(row, table, m))
    && (forall m :: from <= m < to && CountBetween(table, m, m + 1) > 0 ==>
          exists row :: row in rows && row.month == MonthKey(m))
  }

  ghost predicate IsRowOf(row: TrendRow, table: seq<DatedActivity>, m: Month) {
    row == TrendRow(MonthKey(m), CountBetween(table, m, m + 1), CompletedIn(table, m))
  }

  lemma {:induction false} LookupFinds(rows: seq<TrendRow>, key: string)
    ensures var row := Lookup(rows, key);
            if exists r :: r in rows && r.month == key then row in rows && row.month == key
            else row == TrendRow(key, 0, 0)
  {
    if rows != [] {
      var init, last := rows[..|rows| - 1], rows[|rows| - 1];
      assert rows == init + [last];
      LookupFinds(init, key);
    }
  }

  lemma {:induction false} CompletedAreCounted(table: seq<DatedActivity>, m: Month)
    ensures CompletedIn(table, m) <= CountBetween(table, m, m + 1)
  {
    if table != [] {
      CompletedAreCounted(table[..|table| - 1], m);
    }
  }

  lemma {:induction false} CountsJoin(table: seq<DatedActivity>, from: Month, mid: Month, to: Month)
    requires from <= mid <= to
    ensures CountBetween(table, from, to) == CountBetween(table, from, mid) + CountBetween(table, mid, to)
  {
    if table != [] {
      CountsJoin(table[..|table| - 1], from, mid, to);
    }
  }

  lemma PointIsMonthOfTable(rows: seq<TrendRow>, table: seq<DatedActivity>, from: Month, to: Month, m: Month)
    requires GroupedByMonth(rows, table, from, to) && from <= m < to
    ensures PointAt(rows, m)
         == Point(MonthKey(m), CountBetween(table, m, m + 1),
                  Percentage(CompletedIn(table, m), CountBetween(table, m, m + 1)))
  {
    hide MonthKey, CountBetween, CompletedIn, Percentage, Lookup;
    var key := MonthKey(m);
    LookupFinds(rows, key);
    if exists r :: r in rows && r.month == key {
      var row := Lookup(rows, key);
      var n :| from <= n < to && IsRowOf(row, table, n);
      MonthKeysDiffer(n, m);
    } else {
      CompletedAreCounted(table, m);
    }
  }

  /** End to end: every point tells its month of the table, and the points count the whole window once. */
  lemma TrendCountsTheTable(series: seq<Point>, rows: seq<TrendRow>, table: seq<DatedActivity>, months: nat,
                            year: int, month: int)
    requires IsTrend(series, rows, months, year, month)
    requires GroupedByMonth(rows, table, UtcMonth(year, month) - (months - 1), UtcMonth(year, month) + 1)
    ensures forall k :: 0 <= k < months ==>
              var m := UtcMonth(year, month) - (months - 1) + k;
              series[k] == Point(MonthKey(m), CountBetween(table, m, m + 1),
                                 Percentage(CompletedIn(table, m), CountBetween(table, m, m + 1)))
    ensures Total(series) == CountBetween(table, UtcMonth(year, month) - (months - 1), UtcMonth(year, month) + 1)
  {
    var from, to := UtcMonth(year, month) - (months - 1), UtcMonth(year, month) + 1;
    hide MonthKey, CountBetween, CompletedIn, Percentage, Lookup, PointAt, GroupedByMonth;
    forall k | 0 <= k < months
      ensures series[k] == Point(MonthKey(from + k), CountBetween(table, from + k, from + k + 1),
                                 Percentage(CompletedIn(table, from + k), CountBetween(table, from + k, from + k + 1)))
    {
      PointIsMonthOfTable(rows, table, from, to, from + k);
    }
    TotalIsCount(series, table, from);
  }

  lemma {:induction false} TotalIsCount(series: seq<Point>, table: seq<DatedActivity>, from: Month)
    requires forall k :: 0 <= k < |series| ==> series[k].total == CountBetween(table, from + k, from + k + 1)
    ensures Total(series) == CountBetween(table, from, from + |series|)
  {
    if series == [] {
      NothingBetween(table, from);
    } else {
      hide CountBetween;
      var n := |series| - 1;
      TotalIsCount(series[..n], table, from);
      CountsJoin(table, from, from + n, from + n + 1);
    }
  }

  lemma {:induction false} NothingBetween(table: seq<DatedActivity>, from: Month)
    ensures CountBetween(table, from, from) == 0
  {
    if table != [] {
      NothingBetween(table[..|table| - 1], from);
    }
  }
}
