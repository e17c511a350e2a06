/** What `parseProviderData` (src/utils/dataParser.ts) computes, stage by
    stage, as functions of the grid: the header row, the week dates found
    in it and in the row above, the column roles of each week from the
    three strategies, and the records of the data rows. Each stage is a
    left fold in the order the source's loops run, and the properties the
    parser promises are proved here about these functions. */
module ParserSpec {
  import opened Wrappers
  import opened Strings
  import opened DateTokens
  import opened JsSet
  import opened JsMap
  import opened Cells
  import opened Types
  import opened Folds

  // ---------------------------------------------------------------------
  // The header row

  /** The first cell of a row as the header search reads it, lowercased. */
  function FirstCellLower(row: Row): string {
    Lower(CellText(CellAt(row, 0)))
  }

  /** Row `i` is taken as the header when its first cell mentions
      "provider", or, past the first row, is non-empty and not a number. */
  predicate IsHeaderCandidate(grid: Grid, i: nat)
    requires i < |grid|
  {
    var first := FirstCellLower(grid[i]);
    Contains(first, "provider") || (i > 0 && first != "" && !AllDigits(first))
  }

  /** `Math.min(5, excelData.length)`. */
  function SearchLimit(grid: Grid): nat {
    if |grid| < 5 then |grid| else 5
  }

  /** Which of the rows searched are header candidates. */
  function CandidateFlags(grid: Grid): (r: seq<bool>)
    ensures |r| == SearchLimit(grid)
  {
    seq(SearchLimit(grid), j requires 0 <= j < SearchLimit(grid) => IsHeaderCandidate(grid, j))
  }

  /** The position of the first true flag from `i` on, and 0 when none is. */
  function FirstTrue(flags: seq<bool>, i: nat): (h: nat)
    requires i <= |flags|
    ensures h == 0 || i <= h < |flags|
    decreases |flags| - i
  {
    if i == |flags| then 0
    else if flags[i] then i
    else FirstTrue(flags, i + 1)
  }

  /** `headerRowIndex`: the first candidate among the first five rows, or
      row 0 when there is none. */
  function HeaderRowIndex(grid: Grid): (h: nat)
    ensures |grid| > 0 ==> h < SearchLimit(grid) <= |grid|
  {
    FirstTrue(CandidateFlags(grid), 0)
  }

  lemma {:induction false} FirstTrueSpec(flags: seq<bool>, i: nat)
    requires i <= |flags|
    ensures var h := FirstTrue(flags, i);
      (i <= h < |flags| && flags[h] && forall j :: i <= j < h ==> !flags[j])
      || (h == 0 && forall j :: i <= j < |flags| ==> !flags[j])
    decreases |flags| - i
  {
    if i < |flags| && !flags[i] {
      FirstTrueSpec(flags, i + 1);
    }
  }

  /** The header is the first of rows 0 to 4 that is a candidate, and row 0
      when none of them is. */
  lemma HeaderRowIndexSpec(grid: Grid)
    requires |grid| > 0
    ensures HeaderRowIndex(grid) < SearchLimit(grid) <= |grid|
    ensures forall j :: 0 <= j < HeaderRowIndex(grid) ==> !IsHeaderCandidate(grid, j)
    ensures IsHeaderCandidate(grid, HeaderRowIndex(grid))
      || (HeaderRowIndex(grid) == 0 && forall j :: 0 <= j < SearchLimit(grid) ==> !IsHeaderCandidate(grid, j))
  {
    var flags := CandidateFlags(grid);
    FirstTrueSpec(flags, 0);
    assert forall j :: 0 <= j < SearchLimit(grid) ==> flags[j] == IsHeaderCandidate(grid, j);
  }

  // ---------------------------------------------------------------------
  // Week dates

  /** A week column found in the header row or in the row above it. */
  datatype WeekDate = WeekDate(date: string, index: int, header: string)

  /** `String(cell || '').trim()`. */
  function TrimmedText(c: Cell): string {
    Trim(CellText(c))
  }

  /** The `M/D` text the date pattern finds in a cell, if any. */
  function CellDate(c: Cell): Option<string> {
    match FirstToken(TrimmedText(c))
    case Some(t) => Some(TokenText(t))
    case None => None
  }

  /** `weekDates.find(w => w.index === idx)` finds something. */
  predicate HasIndex(ds: seq<WeekDate>, idx: int) {
    exists k :: 0 <= k < |ds| && ds[k].index == idx
  }

  /** `dates` extended, in column order, with the date `date` reads in each
      of columns 1 to n-1 of a row; with `onlyNew`, columns already present
      are skipped. */
  function CollectDates(row: Row, dates: seq<WeekDate>, n: nat, date: Cell -> Option<string>,
                        text: Cell -> string, onlyNew: bool): seq<WeekDate>
    requires n <= |row|
  {
    if n == 0 then dates
    else
      var ds := CollectDates(row, dates, n - 1, date, text, onlyNew);
      var idx := n - 1;
      if idx != 0 && date(row[idx]).Some? && !(onlyNew && HasIndex(ds, idx)) then
        ds + [WeekDate(date(row[idx]).value, idx, text(row[idx]))]
      else ds
  }

  /** The dates of columns 1 to n-1 of the header row, left to right. */
  function HeaderDates(headers: Row, n: nat): seq<WeekDate>
    requires n <= |headers|
  {
    CollectDates(headers, [], n, CellDate, TrimmedText, false)
  }

  /** `dates` extended with the dates of columns 1 to n-1 of the row above
      the header whose column has no date yet, appended in column order. */
  function PrevRowDates(prev: Row, dates: seq<WeekDate>, n: nat): seq<WeekDate>
    requires n <= |prev|
  {
    CollectDates(prev, dates, n, CellDate, TrimmedText, true)
  }

  /** `weekDates`: the header row's dates, then those of the row above. */
  function WeekDates(grid: Grid, hri: nat): seq<WeekDate>
    requires hri < |grid|
  {
    var ds := HeaderDates(grid[hri], |grid[hri]|);
    if hri > 0 then PrevRowDates(grid[hri - 1], ds, |grid[hri - 1]|) else ds
  }

  /** What collecting adds: entries after the given ones, in increasing
      column order, each for a dated column among 1 to n-1. */
  lemma {:induction false} CollectDatesAdded(row: Row, dates: seq<WeekDate>, n: nat, date: Cell -> Option<string>,
                                             text: Cell -> string, onlyNew: bool)
    requires n <= |row|
    ensures dates <= CollectDates(row, dates, n, date, text, onlyNew)
    ensures forall k :: |dates| <= k < |CollectDates(row, dates, n, date, text, onlyNew)| ==>
      1 <= CollectDates(row, dates, n, date, text, onlyNew)[k].index < n
      && date(row[CollectDates(row, dates, n, date, text, onlyNew)[k].index])
         == Some(CollectDates(row, dates, n, date, text, onlyNew)[k].date)
    ensures forall k, l :: |dates| <= k < l < |CollectDates(row, dates, n, date, text, onlyNew)| ==>
      CollectDates(row, dates, n, date, text, onlyNew)[k].index < CollectDates(row, dates, n, date, text, onlyNew)[l].index
    decreases n
  {
    if n > 0 {
      CollectDatesAdded(row, dates, n - 1, date, text, onlyNew);
      var ds := CollectDates(row, dates, n - 1, date, text, onlyNew);
      var r := CollectDates(row, dates, n, date, text, onlyNew);
      var idx := n - 1;
      if idx != 0 && date(row[idx]).Some? && !(onlyNew && HasIndex(ds, idx)) {
        assert r == ds + [WeekDate(date(row[idx]).value, idx, text(row[idx]))];
      } else {
        assert r == ds;
      }
    }
  }

  /** Every dated column among 1 to n-1 ends up present. */
  lemma {:induction false} CollectDatesCovers(row: Row, dates: seq<WeekDate>, n: nat, date: Cell -> Option<string>,
                                              text: Cell -> string, onlyNew: bool)
    requires n <= |row|
    ensures forall idx :: 1 <= idx < n && date(row[idx]).Some? ==> HasIndex(CollectDates(row, dates, n, date, text, onlyNew), idx)
    decreases n
  {
    if n > 0 {
      CollectDatesCovers(row, dates, n - 1, date, text, onlyNew);
      var ds := CollectDates(row, dates, n - 1, date, text, onlyNew);
      var r := CollectDates(row, dates, n, date, text, onlyNew);
      var idx := n - 1;
      if idx != 0 && date(row[idx]).Some? && !(onlyNew && HasIndex(ds, idx)) {
        assert r == ds + [WeekDate(date(row[idx]).value, idx, text(row[idx]))];
        forall j | 1 <= j < n && date(row[j]).Some?
          ensures HasIndex(r, j)
        {
          if j < idx {
            var k :| 0 <= k < |ds| && ds[k].index == j;
            assert r[k] == ds[k];
          } else {
            assert r[|ds|].index == j;
          }
        }
      } else {
        assert r == ds;
      }
    }
  }

  /** With `onlyNew`, no column is collected twice. */
  lemma {:induction false} CollectDatesDistinct(row: Row, dates: seq<WeekDate>, n: nat, date: Cell -> Option<string>,
                                                text: Cell -> string)
    requires n <= |row|
    requires forall k, l :: 0 <= k < l < |dates| ==> dates[k].index != dates[l].index
    ensures forall k, l :: 0 <= k < l < |CollectDates(row, dates, n, date, text, true)| ==>
      CollectDates(row, dates, n, date, text, true)[k].index != CollectDates(row, dates, n, date, text, true)[l].index
    decreases n
  {
    if n > 0 {
      CollectDatesDistinct(row, dates, n - 1, date, text);
      var ds := CollectDates(row, dates, n - 1, date, text, true);
      var r := CollectDates(row, dates, n, date, text, true);
      var idx := n - 1;
      if idx != 0 && date(row[idx]).Some? && !HasIndex(ds, idx) {
        assert r == ds + [WeekDate(date(row[idx]).value, idx, text(row[idx]))];
        forall k, l | 0 <= k < l < |r|
          ensures r[k].index != r[l].index
        {
          if l == |ds| {
            assert r[k] == ds[k];
          }
        }
      } else {
        assert r == ds;
      }
    }
  }

  /** Header dates come in increasing column order and hold a valid token,
      and every dated column of the header is among them. */
  lemma HeaderDatesSpec(headers: Row, n: nat)
    requires n <= |headers|
    ensures forall k :: 0 <= k < |HeaderDates(headers, n)| ==>
      1 <= HeaderDates(headers, n)[k].index < n
      && CellDate(headers[HeaderDates(headers, n)[k].index]) == Some(HeaderDates(headers, n)[k].date)
    ensures forall k, l :: 0 <= k < l < |HeaderDates(headers, n)| ==>
      HeaderDates(headers, n)[k].index < HeaderDates(headers, n)[l].index
    ensures forall idx :: 1 <= idx < n && CellDate(headers[idx]).Some? ==> HasIndex(HeaderDates(headers, n), idx)
  {
    CollectDatesAdded(headers, [], n, CellDate, TrimmedText, false);
    CollectDatesCovers(headers, [], n, CellDate, TrimmedText, false);
  }

  /** The row above only adds columns that have no date yet, so no column
      appears twice, and every dated column of it is covered. */
  lemma PrevRowDatesSpec(prev: Row, dates: seq<WeekDate>, n: nat)
    requires n <= |prev|
    requires forall k, l :: 0 <= k < l < |dates| ==> dates[k].index != dates[l].index
    ensures dates <= PrevRowDates(prev, dates, n)
    ensures forall k, l :: 0 <= k < l < |PrevRowDates(prev, dates, n)| ==>
      PrevRowDates(prev, dates, n)[k].index != PrevRowDates(prev, dates, n)[l].index
    ensures forall k :: |dates| <= k < |PrevRowDates(prev, dates, n)| ==>
      1 <= PrevRowDates(prev, dates, n)[k].index < n
      && CellDate(prev[PrevRowDates(prev, dates, n)[k].index]) == Some(PrevRowDates(prev, dates, n)[k].date)
    ensures forall idx :: 1 <= idx < n && CellDate(prev[idx]).Some? ==> HasIndex(PrevRowDates(prev, dates, n), idx)
  {
    CollectDatesAdded(prev, dates, n, CellDate, TrimmedText, true);
    CollectDatesCovers(prev, dates, n, CellDate, TrimmedText, true);
    CollectDatesDistinct(prev, dates, n, CellDate, TrimmedText);
  }

  // ---------------------------------------------------------------------
  // Strategy 1: keyword matching within each week's columns

  /** The role columns of one week; `None` is a role not found. */
  datatype Columns = Columns(total: Option<int>, over20: Option<int>, percent: Option<int>, hours: Option<int>)

  const NoColumns := Columns(None, None, None, None)

  /** `Object.keys(weekData).length > 0`. */
  predicate HasAny(c: Columns) {
    c.total.Some? || c.over20.Some? || c.percent.Some? || c.hours.Some?
  }

  /** Where a column's label comes from: its own header cell, or, when that
      is empty and the header is not the first row, the cell above it. The
      text is trimmed and lowercased. */
  datatype ColumnLabel = FromHeader(text: string) | FromPrevRow(text: string) | NoLabel

  function LabelAt(grid: Grid, hri: nat, col: int): ColumnLabel
    requires hri < |grid|
  {
    var h := TrimmedText(CellAt(grid[hri], col));
    if h != "" then FromHeader(Lower(h))
    else if hri > 0 then
      var p := TrimmedText(CellAt(grid[hri - 1], col));
      if p != "" then FromPrevRow(Lower(p)) else NoLabel
    else NoLabel
  }

  predicate IsTotal(l: ColumnLabel) {
    match l
    case FromHeader(h) =>
      h == "total" || h == "total visits"
      || (Contains(h, "total") && !Contains(h, "over") && !Contains(h, "%"))
    case FromPrevRow(h) =>
      h == "total" || (Contains(h, "total") && !Contains(h, "over") && !Contains(h, "%"))
    case NoLabel => false
  }

  predicate IsOver20(l: ColumnLabel) {
    match l
    case FromHeader(h) =>
      (Contains(h, "over") && Contains(h, "20") && !Contains(h, "%"))
      || h == "over 20" || h == "visits over 20"
    case FromPrevRow(h) =>
      Contains(h, "over") && Contains(h, "20") && !Contains(h, "%")
    case NoLabel => false
  }

  predicate IsPercent(l: ColumnLabel) {
    match l
    case FromHeader(h) =>
      Contains(h, "%") || (Contains(h, "percent") && Contains(h, "20"))
      || Contains(h, "pct") || h == "% over 20" || Contains(h, "% over")
    case FromPrevRow(h) =>
      Contains(h, "%") || (Contains(h, "percent") && Contains(h, "20"))
    case NoLabel => false
  }

  predicate IsHours(l: ColumnLabel) {
    match l
    case FromHeader(h) => Contains(h, "hour") || Contains(h, "hours")
    case FromPrevRow(h) => Contains(h, "hour")
    case NoLabel => false
  }

  /** The outcome of the four role tests on one column's label. */
  datatype Tests = Tests(total: bool, over20: bool, percent: bool, hours: bool)

  function TestsOf(l: ColumnLabel): Tests {
    Tests(IsTotal(l), IsOver20(l), IsPercent(l), IsHours(l))
  }

  /** The role tests of every column of the week map's header. */
  function ColumnTests(grid: Grid, hri: nat): int -> Tests
    requires hri < |grid|
  {
    col => TestsOf(LabelAt(grid, hri, col))
  }

  /** One column of the scan: the first role, in the order total, over 20,
      percent, hours, that is still free and whose test the label passes
      takes the column. */
  function Assign(c: Columns, t: Tests, col: int): Columns {
    if c.total.None? && t.total then c.(total := Some(col))
    else if c.over20.None? && t.over20 then c.(over20 := Some(col))
    else if c.percent.None? && t.percent then c.(percent := Some(col))
    else if c.hours.None? && t.hours then c.(hours := Some(col))
    else c
  }

  /** The roles after scanning columns `start` to `end - 1`. */
  function ScanColumns(tests: int -> Tests, start: int, end: int): Columns
    decreases end - start
  {
    if end <= start then NoColumns
    else Assign(ScanColumns(tests, start, end - 1), tests(end - 1), end - 1)
  }

  /** `nextWeekIndex`: the column of the next week date, or the header's
      length after the last one. */
  function NextIndex(dates: seq<WeekDate>, k: nat, width: nat): int
    requires k < |dates|
  {
    if k < |dates| - 1 then dates[k + 1].index else width
  }

  /** `weekStart`. */
  function WeekStart(dates: seq<WeekDate>, k: nat): int
    requires k < |dates|
  {
    if dates[k].index < 1 then 1 else dates[k].index
  }

  /** `weekEnd`. */
  function WeekEnd(dates: seq<WeekDate>, k: nat, width: nat): int
    requires k < |dates|
  {
    var next := NextIndex(dates, k, width);
    if next < width then next else width
  }

  /** The roles of week `k` found by the keyword strategy. */
  function WeekColumns(grid: Grid, hri: nat, dates: seq<WeekDate>, k: nat): Columns
    requires hri < |grid| && k < |dates|
  {
    ScanColumns(ColumnTests(grid, hri), WeekStart(dates, k), WeekEnd(dates, k, |grid[hri]|))
  }

  /** `Week of ${date}`. */
  function WeekKey(date: string): string {
    "Week of " + date
  }

  /** The `weekMap.set` call of the keyword strategy for week `k`: made
      only when some role was found. */
  function KeywordStep(grid: Grid, hri: nat, dates: seq<WeekDate>, k: nat): Option<(string, Columns)>
    requires hri < |grid| && k < |dates|
  {
    var cols := WeekColumns(grid, hri, dates, k);
    if HasAny(cols) then Some((WeekKey(dates[k].date), cols)) else None
  }

  function KeywordSteps(grid: Grid, hri: nat, dates: seq<WeekDate>): seq<Option<(string, Columns)>>
    requires hri < |grid|
  {
    seq(|dates|, k requires 0 <= k < |dates| => KeywordStep(grid, hri, dates, k))
  }

  // ---------------------------------------------------------------------
  // Strategy 2: fixed offsets from each date column

  /** `colsBetween`. */
  function Gap(dates: seq<WeekDate>, k: nat, width: nat): int
    requires k < |dates|
  {
    NextIndex(dates, k, width) - dates[k].index - 1
  }

  /** Total, over 20 and percent in the three columns after the date, hours
      in the fourth when the gap has room for it. */
  function PositionalColumns(index: int, gap: int): Columns {
    Columns(Some(index + 1), Some(index + 2), Some(index + 3), if gap >= 4 then Some(index + 4) else None)
  }

  /** The `weekMap.set` call of the positional strategy for week `k`: made
      only when the gap to the next date holds at least two columns. */
  function PositionalStep(dates: seq<WeekDate>, width: nat, k: nat): Option<(string, Columns)>
    requires k < |dates|
  {
    var g := Gap(dates, k, width);
    if g >= 2 then Some((WeekKey(dates[k].date), PositionalColumns(dates[k].index, g))) else None
  }

  function PositionalSteps(dates: seq<WeekDate>, width: nat): seq<Option<(string, Columns)>> {
    seq(|dates|, k requires 0 <= k < |dates| => PositionalStep(dates, width, k))
  }

  // ---------------------------------------------------------------------
  // Strategy 3: three columns per week from column 1

  /** `min(floor((width - 1) / 3), 52)`, and no week for an empty header. */
  function FixedWeekCount(width: nat): nat {
    var n := (width - 1) / 3;
    if n < 0 then 0 else if n > 52 then 52 else n
  }

  /** `Week ${k + 1}`. */
  function FixedLabel(k: nat): string {
    "Week " + NatText(k + 1)
  }

  function FixedColumns(k: nat): Columns {
    Columns(Some(1 + 3 * k), Some(2 + 3 * k), Some(3 + 3 * k), None)
  }

  function FixedSteps(n: nat): seq<Option<(string, Columns)>> {
    seq(n, k requires 0 <= k < n => Some((FixedLabel(k), FixedColumns(k))))
  }

  /** The week map after the cascade: the keyword map; when it is empty
      but dates exist, the positional map; when that is empty too, the
      fixed map. */
  function ResolveWeekMap(grid: Grid, hri: nat): seq<(string, Columns)>
    requires hri < |grid|
  {
    var dates := WeekDates(grid, hri);
    var width := |grid[hri]|;
    var keyword := Build(KeywordSteps(grid, hri, dates));
    var positional := if |dates| > 0 && keyword == [] then Build(PositionalSteps(dates, width)) else keyword;
    if positional == [] then Build(FixedSteps(FixedWeekCount(width))) else positional
  }

  // ---------------------------------------------------------------------
  // Records

  /** `provider`: the trimmed text of the first cell. */
  function ProviderOf(row: Row): string {
    TrimmedText(CellAt(row, 0))
  }

  /** Rows that never produce a record: a blank provider, the literal
      "Provider", or a "total" row. */
  predicate IsReserved(provider: string) {
    provider == "" || provider == "Provider" || Lower(provider) == "total"
  }

  /** The record a data row gives for one week: the percent is derived from
      the counts when the sheet gives 0 and there are visits, and the hours
      are kept only when they are positive. */
  function MakeRecord(row: Row, week: string, cols: Columns): ProviderWeekData {
    var total := GetValue(row, cols.total);
    var over := GetValue(row, cols.over20);
    var read := GetValue(row, cols.percent);
    var hours := if cols.hours.Some? then Some(GetValue(row, cols.hours)) else None;
    ProviderWeekData(
      ProviderOf(row), week, total, over,
      if read == 0.0 && total > 0.0 then over / total * 100.0 else read,
      if hours.Some? && hours.value > 0.0 then hours else None)
  }

  /** `totalVisits > 0 || visitsOver20Min > 0`. */
  predicate HasVisits(row: Row, cols: Columns) {
    GetValue(row, cols.total) > 0.0 || GetValue(row, cols.over20) > 0.0
  }

  /** The record, if any, a data row gives for one entry of the map. */
  function RecordOf(row: Row): ((string, Columns)) -> Option<ProviderWeekData> {
    (e: (string, Columns)) => if HasVisits(row, e.1) then Some(MakeRecord(row, e.0, e.1)) else None
  }

  /** A row gives records only when its provider is not reserved. */
  predicate KeepsRow(row: Row) {
    !IsReserved(ProviderOf(row))
  }

  /** `row && row.length > 0`. */
  predicate NonEmptyRow(row: Row) {
    |row| > 0
  }

  /** The result of `parseProviderData`. */
  function ProviderData(grid: Grid): seq<ProviderWeekData> {
    if grid == [] then [] else RecordsUnder(grid, HeaderRowIndex(grid))
  }

  /** The records of the non-empty rows below row `hri`, by the week map
      resolved on that row. */
  function RecordsUnder(grid: Grid, hri: nat): seq<ProviderWeekData>
    requires hri < |grid|
  {
    Flatten(ForEachKept(Filter(grid[hri + 1..], NonEmptyRow), KeepsRow, ResolveWeekMap(grid, hri), RecordOf))
  }

  // ---------------------------------------------------------------------
  // Properties of the keyword scan

  datatype Role = TotalRole | Over20Role | PercentRole | HoursRole

  function RoleColumn(c: Columns, r: Role): Option<int> {
    match r
    case TotalRole => c.total
    case Over20Role => c.over20
    case PercentRole => c.percent
    case HoursRole => c.hours
  }

  /** The test of role `r`. */
  predicate Passes(r: Role, t: Tests) {
    match r
    case TotalRole => t.total
    case Over20Role => t.over20
    case PercentRole => t.percent
    case HoursRole => t.hours
  }

  /** Column `y` went to a role tested before `r`. */
  predicate HeldBefore(c: Columns, r: Role, y: int) {
    match r
    case TotalRole => false
    case Over20Role => c.total == Some(y)
    case PercentRole => c.total == Some(y) || c.over20 == Some(y)
    case HoursRole => c.total == Some(y) || c.over20 == Some(y) || c.percent == Some(y)
  }

  /** A role once found keeps its column. */
  lemma AssignKeeps(c: Columns, t: Tests, col: int, r: Role)
    requires RoleColumn(c, r).Some?
    ensures RoleColumn(Assign(c, t, col), r) == RoleColumn(c, r)
  {
  }

  /** Each role of a week is the first column of the range that passes the
      role's test and was not taken by a role tested before it; a role left
      unfound means every column passing its test was taken that way. For
      the total, tested first, this is simply the first column passing. */
  lemma {:induction false} ScanColumnsRole(tests: int -> Tests, start: int, end: int, r: Role)
    ensures var c := ScanColumns(tests, start, end);
      match RoleColumn(c, r)
      case Some(x) =>
        start <= x < end && Passes(r, tests(x))
        && forall y :: start <= y < x && Passes(r, tests(y)) ==> HeldBefore(c, r, y)
      case None =>
        forall y :: start <= y < end && Passes(r, tests(y)) ==> HeldBefore(c, r, y)
    decreases end - start
  {
    if start < end {
      var c0 := ScanColumns(tests, start, end - 1);
      var t := tests(end - 1);
      var c := Assign(c0, t, end - 1);
      assert c == ScanColumns(tests, start, end);
      ScanColumnsRole(tests, start, end - 1, r);
      forall r' | RoleColumn(c0, r').Some?
        ensures RoleColumn(c, r') == RoleColumn(c0, r')
      {
        AssignKeeps(c0, t, end - 1, r');
      }
      forall y | HeldBefore(c0, r, y)
        ensures HeldBefore(c, r, y)
      {
      }
    }
  }

  /** For the total, tested first: its column is the first one whose label
      passes the total test, and it is unfound only when none does. */
  lemma TotalIsFirst(grid: Grid, hri: nat, start: int, end: int)
    requires hri < |grid|
    ensures var c := ScanColumns(ColumnTests(grid, hri), start, end);
      match c.total
      case Some(x) =>
        start <= x < end && IsTotal(LabelAt(grid, hri, x))
        && forall y :: start <= y < x ==> !IsTotal(LabelAt(grid, hri, y))
      case None => forall y :: start <= y < end ==> !IsTotal(LabelAt(grid, hri, y))
  {
    TotalFirst(ColumnTests(grid, hri), start, end);
    assert forall y :: ColumnTests(grid, hri)(y).total == IsTotal(LabelAt(grid, hri, y));
  }

  lemma TotalFirst(tests: int -> Tests, start: int, end: int)
    ensures var c := ScanColumns(tests, start, end);
      match c.total
      case Some(x) => start <= x < end && tests(x).total && forall y :: start <= y < x ==> !tests(y).total
      case None => forall y :: start <= y < end ==> !tests(y).total
  {
    ScanColumnsRole(tests, start, end, TotalRole);
  }

  /** No column serves two roles of the same week. */
  lemma {:induction false} ScanColumnsDistinct(tests: int -> Tests, start: int, end: int, r1: Role, r2: Role)
    requires r1 != r2
    requires RoleColumn(ScanColumns(tests, start, end), r1).Some?
    ensures RoleColumn(ScanColumns(tests, start, end), r1) != RoleColumn(ScanColumns(tests, start, end), r2)
    decreases end - start
  {
    if start < end {
      var c0 := ScanColumns(tests, start, end - 1);
      var t := tests(end - 1);
      forall r | true
        ensures RoleColumn(c0, r).Some? ==> RoleColumn(c0, r).value < end - 1
      {
        ScanColumnsRole(tests, start, end - 1, r);
      }
      if RoleColumn(c0, r1).Some? {
        ScanColumnsDistinct(tests, start, end - 1, r1, r2);
        AssignKeeps(c0, t, end - 1, r1);
        if RoleColumn(c0, r2).Some? {
          AssignKeeps(c0, t, end - 1, r2);
        }
      } else if RoleColumn(c0, r2).Some? {
        AssignKeeps(c0, t, end - 1, r2);
      }
    }
  }

  /** The keyword map holds only weeks with at least one role, each entry
      being the date's key and the roles of that week; every such week has
      its key in the map; and the map is empty exactly when no week found a
      role. */
  lemma KeywordMapSpec(grid: Grid, hri: nat, dates: seq<WeekDate>)
    requires hri < |grid|
    ensures var m := Build(KeywordSteps(grid, hri, dates));
      (forall e :: e in m ==>
        (HasAny(e.1)
         && exists k :: 0 <= k < |dates| && e == (WeekKey(dates[k].date), WeekColumns(grid, hri, dates, k))))
      && (forall k :: 0 <= k < |dates| && HasAny(WeekColumns(grid, hri, dates, k)) ==> WeekKey(dates[k].date) in Keys(m))
      && (m == [] <==> forall k :: 0 <= k < |dates| ==> !HasAny(WeekColumns(grid, hri, dates, k)))
  {
    var steps := KeywordSteps(grid, hri, dates);
    var m := Build(steps);
    BuildEntries(steps);
    BuildEmpty(steps);
    StepKeysPresent(steps);
    forall e | e in m
      ensures HasAny(e.1)
      ensures exists k :: 0 <= k < |dates| && e == (WeekKey(dates[k].date), WeekColumns(grid, hri, dates, k))
    {
      var k :| 0 <= k < |steps| && steps[k] == Some(e);
      assert steps[k] == KeywordStep(grid, hri, dates, k);
    }
    forall k | 0 <= k < |dates| && HasAny(WeekColumns(grid, hri, dates, k))
      ensures WeekKey(dates[k].date) in Keys(m)
    {
      assert steps[k] == KeywordStep(grid, hri, dates, k);
    }
    assert (forall k :: 0 <= k < |steps| ==> steps[k].None?)
        <==> (forall k :: 0 <= k < |dates| ==> !HasAny(WeekColumns(grid, hri, dates, k))) by {
      forall k | 0 <= k < |dates|
        ensures steps[k].None? <==> !HasAny(WeekColumns(grid, hri, dates, k))
      {
        assert steps[k] == KeywordStep(grid, hri, dates, k);
      }
    }
  }

  /** Every key some step sets is a key of the built map. */
  lemma StepKeysPresent<V>(steps: seq<Option<(string, V)>>)
    ensures forall k :: 0 <= k < |steps| && steps[k].Some? ==> steps[k].value.0 in Keys(Build(steps))
  {
    forall k | 0 <= k < |steps| && steps[k].Some?
      ensures steps[k].value.0 in Keys(Build(steps))
    {
      StepKeyIn(steps, k);
      BuildKeys(steps);
    }
  }

  lemma {:induction false} StepKeyIn<V>(steps: seq<Option<(string, V)>>, k: nat)
    requires k < |steps| && steps[k].Some?
    ensures steps[k].value.0 in StepKeys(steps)
    decreases |steps|
  {
    var init := steps[..|steps| - 1];
    if k < |init| {
      assert init[k] == steps[k];
      StepKeyIn(init, k);
    }
  }

  /** The positional map holds, for each date whose gap to the next date has
      two columns or more, total, over 20 and percent in the next three
      columns and hours in the fourth when the gap has four; and only such
      entries. */
  lemma PositionalMapSpec(dates: seq<WeekDate>, width: nat)
    ensures var m := Build(PositionalSteps(dates, width));
      (forall e :: e in m ==>
        exists k :: 0 <= k < |dates| && Gap(dates, k, width) >= 2
          && e.0 == WeekKey(dates[k].date)
          && e.1.total == Some(dates[k].index + 1) && e.1.over20 == Some(dates[k].index + 2)
          && e.1.percent == Some(dates[k].index + 3)
          && e.1.hours == (if Gap(dates, k, width) >= 4 then Some(dates[k].index + 4) else None))
      && (forall k :: 0 <= k < |dates| && Gap(dates, k, width) >= 2 ==> WeekKey(dates[k].date) in Keys(m))
      && (m == [] <==> forall k :: 0 <= k < |dates| ==> Gap(dates, k, width) < 2)
  {
    PositionalEntries(dates, width);
    PositionalKeys(dates, width);
    var steps := PositionalSteps(dates, width);
    BuildEmpty(steps);
    forall k | 0 <= k < |dates|
      ensures steps[k].None? <==> Gap(dates, k, width) < 2
    {
      assert steps[k] == PositionalStep(dates, width, k);
    }
  }

  lemma PositionalEntries(dates: seq<WeekDate>, width: nat)
    ensures forall e :: e in Build(PositionalSteps(dates, width)) ==>
        exists k :: 0 <= k < |dates| && Gap(dates, k, width) >= 2
          && e.0 == WeekKey(dates[k].date)
          && e.1.total == Some(dates[k].index + 1) && e.1.over20 == Some(dates[k].index + 2)
          && e.1.percent == Some(dates[k].index + 3)
          && e.1.hours == (if Gap(dates, k, width) >= 4 then Some(dates[k].index + 4) else None)
  {
    var steps := PositionalSteps(dates, width);
    BuildEntries(steps);
    forall e | e in Build(steps)
      ensures exists k :: 0 <= k < |dates| && Gap(dates, k, width) >= 2
                && e.0 == WeekKey(dates[k].date)
                && e.1.total == Some(dates[k].index + 1) && e.1.over20 == Some(dates[k].index + 2)
                && e.1.percent == Some(dates[k].index + 3)
                && e.1.hours == (if Gap(dates, k, width) >= 4 then Some(dates[k].index + 4) else None)
    {
      var k :| 0 <= k < |steps| && steps[k] == Some(e);
      assert steps[k] == PositionalStep(dates, width, k);
    }
  }

  lemma PositionalKeys(dates: seq<WeekDate>, width: nat)
    ensures forall k :: 0 <= k < |dates| && Gap(dates, k, width) >= 2 ==>
      WeekKey(dates[k].date) in Keys(Build(PositionalSteps(dates, width)))
  {
    var steps := PositionalSteps(dates, width);
    StepKeysPresent(steps);
    forall k | 0 <= k < |dates| && Gap(dates, k, width) >= 2
      ensures WeekKey(dates[k].date) in Keys(Build(steps))
    {
      assert steps[k] == PositionalStep(dates, width, k);
    }
  }

  /** The fixed map is exactly weeks "Week 1" to "Week n", week k at columns
      3k - 2, 3k - 1 and 3k, for n = min(floor((width - 1) / 3), 52). */
  lemma FixedMapSpec(width: nat)
    ensures var m := Build(FixedSteps(FixedWeekCount(width)));
      |m| == FixedWeekCount(width) <= 52
      && forall k :: 0 <= k < |m| ==> m[k] == (FixedLabel(k), FixedColumns(k))
  {
    FixedBuild(FixedWeekCount(width));
  }

  lemma {:induction false} FixedBuild(n: nat)
    ensures |Build(FixedSteps(n))| == n
    ensures forall k :: 0 <= k < n ==> Build(FixedSteps(n))[k] == (FixedLabel(k), FixedColumns(k))
    decreases n
  {
    if n > 0 {
      FixedBuild(n - 1);
      FixedBuildLast(n);
    }
  }

  /** The last week's label is new, so `set` appends it. */
  lemma FixedBuildLast(n: nat)
    requires n > 0
    requires |Build(FixedSteps(n - 1))| == n - 1
    requires forall k :: 0 <= k < n - 1 ==> Build(FixedSteps(n - 1))[k] == (FixedLabel(k), FixedColumns(k))
    ensures Build(FixedSteps(n)) == Build(FixedSteps(n - 1)) + [(FixedLabel(n - 1), FixedColumns(n - 1))]
  {
    var steps := FixedSteps(n);
    assert steps[..n - 1] == FixedSteps(n - 1);
    var m := Build(FixedSteps(n - 1));
    forall k | 0 <= k < |m|
      ensures m[k].0 != FixedLabel(n - 1)
    {
      FixedLabelInjective(k, n - 1);
    }
    AppendNewKey(m, FixedLabel(n - 1), FixedColumns(n - 1));
  }

  /** Distinct weeks get distinct labels. */
  lemma FixedLabelInjective(a: nat, b: nat)
    ensures FixedLabel(a) == FixedLabel(b) ==> a == b
  {
    if FixedLabel(a) == FixedLabel(b) {
      assert NatText(a + 1) == FixedLabel(a)[5..];
      assert NatText(b + 1) == FixedLabel(b)[5..];
      NatTextInjective(a + 1, b + 1);
    }
  }

  /** `set` of a key not yet present appends it. */
  lemma {:induction false} AppendNewKey<V>(m: seq<(string, V)>, k: string, v: V)
    requires forall i :: 0 <= i < |m| ==> m[i].0 != k
    ensures Set(m, k, v) == m + [(k, v)]
    decreases |m|
  {
    if m != [] {
      AppendNewKey(m[1..], k, v);
      assert m == [m[0]] + m[1..];
    }
  }

  /** The cascade: the keyword map when some week found a role; otherwise
      the positional map when there are dates and one of them has a gap of
      two columns or more; otherwise the fixed map. */
  lemma ResolveWeekMapSpec(grid: Grid, hri: nat)
    requires hri < |grid|
    ensures var dates := WeekDates(grid, hri);
      var width := |grid[hri]|;
      ResolveWeekMap(grid, hri) ==
        if exists k :: 0 <= k < |dates| && HasAny(WeekColumns(grid, hri, dates, k)) then
          Build(KeywordSteps(grid, hri, dates))
        else if exists k :: 0 <= k < |dates| && Gap(dates, k, width) >= 2 then
          Build(PositionalSteps(dates, width))
        else Build(FixedSteps(FixedWeekCount(width)))
  {
    var dates := WeekDates(grid, hri);
    KeywordMapSpec(grid, hri, dates);
    PositionalMapSpec(dates, |grid[hri]|);
  }

  // ---------------------------------------------------------------------
  // Properties of the records

  /** The record of a row and week: its provider, week and counts are the
      row's; its percent is the sheet's, or over 20 / total * 100 when the
      sheet gives 0 and there are visits; its hours are present only when an
      hours column is mapped and holds a positive number. */
  lemma MakeRecordSpec(row: Row, week: string, cols: Columns)
    ensures var r := MakeRecord(row, week, cols);
      r.provider == ProviderOf(row) && r.week == week
      && r.totalVisits == GetValue(row, cols.total)
      && r.visitsOver20Min == GetValue(row, cols.over20)
      && (GetValue(row, cols.percent) == 0.0 && r.totalVisits > 0.0 ==>
            r.percentOver20Min == r.visitsOver20Min / r.totalVisits * 100.0)
      && (GetValue(row, cols.percent) != 0.0 || r.totalVisits <= 0.0 ==>
            r.percentOver20Min == GetValue(row, cols.percent))
      && (r.hoursOn20PlusMin.Some? <==> cols.hours.Some? && GetValue(row, cols.hours) > 0.0)
      && (r.hoursOn20PlusMin.Some? ==> r.hoursOn20PlusMin.value == GetValue(row, cols.hours))
  {
  }

  /** A derived percent lies between 0 and 100 when the over-20 count is
      between 0 and the total. */
  lemma DerivedPercentBounds(row: Row, week: string, cols: Columns)
    requires GetValue(row, cols.percent) == 0.0 && GetValue(row, cols.total) > 0.0
    requires 0.0 <= GetValue(row, cols.over20) <= GetValue(row, cols.total)
    ensures 0.0 <= MakeRecord(row, week, cols).percentOver20Min <= 100.0
  {
    var t, o := GetValue(row, cols.total), GetValue(row, cols.over20);
    assert o / t <= 1.0 by {
      assert o <= t;
    }
  }

  /** Every record built from a map has visits, a provider that is not
      reserved, a week of the map, and hours only when they are positive. */
  lemma RecordFacts(rows: seq<Row>, m: seq<(string, Columns)>)
    ensures forall r :: r in Flatten(ForEachKept(Filter(rows, NonEmptyRow), KeepsRow, m, RecordOf)) ==>
      (r.totalVisits > 0.0 || r.visitsOver20Min > 0.0)
      && !IsReserved(r.provider)
      && (r.hoursOn20PlusMin.Some? ==> r.hoursOn20PlusMin.value > 0.0)
      && r.week in Keys(m)
  {
    KeptMembers(rows, NonEmptyRow, KeepsRow, m, RecordOf);
    forall r | r in Flatten(ForEachKept(Filter(rows, NonEmptyRow), KeepsRow, m, RecordOf))
      ensures (r.totalVisits > 0.0 || r.visitsOver20Min > 0.0)
        && !IsReserved(r.provider)
        && (r.hoursOn20PlusMin.Some? ==> r.hoursOn20PlusMin.value > 0.0)
        && r.week in Keys(m)
    {
      var row, e :| row in rows && NonEmptyRow(row) && KeepsRow(row) && e in m && RecordOf(row)(e) == Some(r);
      RecordFact(row, m, e, r);
    }
  }

  lemma RecordFact(row: Row, m: seq<(string, Columns)>, e: (string, Columns), r: ProviderWeekData)
    requires KeepsRow(row) && e in m && RecordOf(row)(e) == Some(r)
    ensures (r.totalVisits > 0.0 || r.visitsOver20Min > 0.0)
      && !IsReserved(r.provider)
      && (r.hoursOn20PlusMin.Some? ==> r.hoursOn20PlusMin.value > 0.0)
      && r.week in Keys(m)
  {
    MakeRecordSpec(row, e.0, e.1);
    var j :| 0 <= j < |m| && m[j] == e;
    assert Keys(m)[j] == e.0;
  }

  /** The records of a grid are exactly, for every non-empty row below the
      header whose provider is not reserved and every entry of the week
      map, the record of that row and entry when it has visits. */
  lemma ProviderDataSpec(grid: Grid)
    requires |grid| > 0
    ensures var hri := HeaderRowIndex(grid);
      hri < |grid|
      && forall r :: r in ProviderData(grid) <==>
        exists row, e :: row in grid[hri + 1..] && NonEmptyRow(row) && KeepsRow(row)
          && e in ResolveWeekMap(grid, hri) && RecordOf(row)(e) == Some(r)
  {
    HeaderRowIndexBound(grid);
    RecordsUnderMembers(grid, HeaderRowIndex(grid));
  }

  lemma RecordsUnderMembers(grid: Grid, hri: nat)
    requires hri < |grid|
    ensures forall r :: r in RecordsUnder(grid, hri) <==>
      exists row, e :: row in grid[hri + 1..] && NonEmptyRow(row) && KeepsRow(row)
        && e in ResolveWeekMap(grid, hri) && RecordOf(row)(e) == Some(r)
  {
    KeptMembers(grid[hri + 1..], NonEmptyRow, KeepsRow, ResolveWeekMap(grid, hri), RecordOf);
  }

  lemma HeaderRowIndexBound(grid: Grid)
    requires |grid| > 0
    ensures HeaderRowIndex(grid) < |grid|
  {
    HeaderRowIndexSpec(grid);
  }

  /** Every record of a grid has visits, a provider that is not reserved, a
      week of the map, and hours only when they are positive; and an empty
      grid gives no records. */
  lemma ProviderDataRecords(grid: Grid)
    ensures grid == [] ==> ProviderData(grid) == []
    ensures forall r :: r in ProviderData(grid) ==>
      (r.totalVisits > 0.0 || r.visitsOver20Min > 0.0)
      && !IsReserved(r.provider)
      && (r.hoursOn20PlusMin.Some? ==> r.hoursOn20PlusMin.value > 0.0)
      && grid != [] && r.week in Keys(ResolveWeekMap(grid, HeaderRowIndex(grid)))
  {
    if grid != [] {
      HeaderRowIndexBound(grid);
      RecordsUnderFacts(grid, HeaderRowIndex(grid));
    }
  }

  lemma RecordsUnderFacts(grid: Grid, hri: nat)
    requires hri < |grid|
    ensures forall r :: r in RecordsUnder(grid, hri) ==>
      (r.totalVisits > 0.0 || r.visitsOver20Min > 0.0)
      && !IsReserved(r.provider)
      && (r.hoursOn20PlusMin.Some? ==> r.hoursOn20PlusMin.value > 0.0)
      && r.week in Keys(ResolveWeekMap(grid, hri))
  {
    RecordFacts(grid[hri + 1..], ResolveWeekMap(grid, hri));
  }

  /** A row whose provider is reserved gives no record, whatever the map. */
  lemma ReservedRowsSkipped(grid: Grid, row: Row)
    requires IsReserved(ProviderOf(row))
    ensures forall r :: r in ProviderData(grid) ==> r.provider != ProviderOf(row)
  {
    ProviderDataRecords(grid);
  }
}
