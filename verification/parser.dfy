/** `parseProviderData` of src/utils/dataParser.ts as the program runs it:
    the header search, the collection of week dates, the three strategies
    that fill the week map and the loops that emit the records. Each step
    is proved to compute the function of `ParserSpec` that describes it,
    so everything proved there holds of what these methods return. */
module DataParser {
  import opened Wrappers
  import opened Strings
  import opened DateTokens
  import opened JsMap
  import opened Cells
  import opened Types
  import opened Folds
  import opened ParserSpec

  /** The loop over the first five rows that stops at the first header
      candidate; row 0 when none is. */
  method LocateHeader(excelData: Grid) returns (headerRowIndex: nat)
    ensures headerRowIndex == HeaderRowIndex(excelData)
    ensures |excelData| > 0 ==> headerRowIndex < |excelData|
  {
    ghost var flags := CandidateFlags(excelData);
    headerRowIndex := 0;
    var limit := if |excelData| < 5 then |excelData| else 5;
    var i := 0;
    while i < limit
      invariant i <= limit == |flags|
      invariant FirstTrue(flags, 0) == FirstTrue(flags, i)
    {
      var firstCell := Lower(CellText(CellAt(excelData[i], 0)));
      assert flags[i] == IsHeaderCandidate(excelData, i);
      if Contains(firstCell, "provider") || (i > 0 && firstCell != "" && !AllDigits(firstCell)) {
        headerRowIndex := i;
        return;
      }
      i := i + 1;
    }
  }

  /** `weekDates.find(w => w.index === idx)` finds something. */
  method FindIndex(weekDates: seq<WeekDate>, idx: int) returns (found: bool)
    ensures found <==> HasIndex(weekDates, idx)
  {
    var k := 0;
    while k < |weekDates|
      invariant k <= |weekDates|
      invariant forall j :: 0 <= j < k ==> weekDates[j].index != idx
    {
      if weekDates[k].index == idx {
        return true;
      }
      k := k + 1;
    }
    return false;
  }

  /** The dated columns of the header row, then those of the row above it
      whose column has none yet. */
  method CollectWeekDates(excelData: Grid, headerRowIndex: nat) returns (weekDates: seq<WeekDate>)
    requires headerRowIndex < |excelData|
    ensures weekDates == WeekDates(excelData, headerRowIndex)
  {
    var headers := excelData[headerRowIndex];
    weekDates := [];
    var idx := 0;
    while idx < |headers|
      invariant idx <= |headers|
      invariant weekDates == HeaderDates(headers, idx)
    {
      if idx != 0 {
        var headerStr := TrimmedText(headers[idx]);
        var dateMatch := FirstToken(headerStr);
        if dateMatch.Some? {
          weekDates := weekDates + [WeekDate(TokenText(dateMatch.value), idx, headerStr)];
        }
      }
      idx := idx + 1;
    }
    if headerRowIndex > 0 {
      var prevRow := excelData[headerRowIndex - 1];
      ghost var fromHeaders := weekDates;
      idx := 0;
      while idx < |prevRow|
        invariant idx <= |prevRow|
        invariant weekDates == PrevRowDates(prevRow, fromHeaders, idx)
      {
        if idx != 0 {
          var cellStr := TrimmedText(prevRow[idx]);
          var dateMatch := FirstToken(cellStr);
          var seen := FindIndex(weekDates, idx);
          if dateMatch.Some? && !seen {
            weekDates := weekDates + [WeekDate(TokenText(dateMatch.value), idx, cellStr)];
          }
        }
        idx := idx + 1;
      }
    }
  }

  /** The role scan of one column, written as the program's two chains of
      tests: on the header cell, or on the cell above when the header cell
      is empty. */
  method ScanColumn(excelData: Grid, headerRowIndex: nat, weekData: Columns, col: int) returns (next: Columns)
    requires headerRowIndex < |excelData|
    ensures next == Assign(weekData, TestsOf(LabelAt(excelData, headerRowIndex, col)), col)
  {
    next := weekData;
    var colHeader := TrimmedText(CellAt(excelData[headerRowIndex], col));
    if colHeader == "" {
      if headerRowIndex > 0 {
        var prevRowHeader := TrimmedText(CellAt(excelData[headerRowIndex - 1], col));
        if prevRowHeader != "" {
          next := PrevRowRole(Lower(prevRowHeader), weekData, col);
        }
      }
      return;
    }
    next := HeaderRole(Lower(colHeader), weekData, col);
  }

  /** The role tests on a label taken from the row above the header. */
  method PrevRowRole(p: string, weekData: Columns, col: int) returns (next: Columns)
    ensures next == Assign(weekData, TestsOf(FromPrevRow(p)), col)
  {
    next := weekData;
    if next.total.None? && (p == "total" || (Contains(p, "total") && !Contains(p, "over") && !Contains(p, "%"))) {
      next := next.(total := Some(col));
    } else if next.over20.None? && (Contains(p, "over") && Contains(p, "20") && !Contains(p, "%")) {
      next := next.(over20 := Some(col));
    } else if next.percent.None? && (Contains(p, "%") || (Contains(p, "percent") && Contains(p, "20"))) {
      next := next.(percent := Some(col));
    } else if next.hours.None? && Contains(p, "hour") {
      next := next.(hours := Some(col));
    }
  }

  /** The role tests on a header label. */
  method HeaderRole(h: string, weekData: Columns, col: int) returns (next: Columns)
    ensures next == Assign(weekData, TestsOf(FromHeader(h)), col)
  {
    next := weekData;
    if next.total.None? && (h == "total" || h == "total visits"
      || (Contains(h, "total") && !Contains(h, "over") && !Contains(h, "%")))
    {
      next := next.(total := Some(col));
    } else if next.over20.None? && ((Contains(h, "over") && Contains(h, "20") && !Contains(h, "%"))
      || h == "over 20" || h == "visits over 20")
    {
      next := next.(over20 := Some(col));
    } else if next.percent.None? && (Contains(h, "%") || (Contains(h, "percent") && Contains(h, "20"))
      || Contains(h, "pct") || h == "% over 20" || Contains(h, "% over"))
    {
      next := next.(percent := Some(col));
    } else if next.hours.None? && (Contains(h, "hour") || Contains(h, "hours")) {
      next := next.(hours := Some(col));
    }
  }


  lemma ScanStep(grid: Grid, hri: nat, start: int, col: int)
    requires hri < |grid| && start <= col
    ensures ScanColumns(ColumnTests(grid, hri), start, col + 1)
      == Assign(ScanColumns(ColumnTests(grid, hri), start, col), TestsOf(LabelAt(grid, hri, col)), col)
  {
  }

  lemma ScanEmpty(tests: int -> Tests, start: int, end: int)
    requires end <= start
    ensures ScanColumns(tests, start, start) == ScanColumns(tests, start, end) == NoColumns
  {
  }

  /** The scan of columns `start` to `end - 1`. */
  method ScanRange(excelData: Grid, headerRowIndex: nat, start: int, end: int) returns (weekData: Columns)
    requires headerRowIndex < |excelData|
    ensures weekData == ScanColumns(ColumnTests(excelData, headerRowIndex), start, end)
  {
    weekData := NoColumns;
    if end <= start {
      ScanEmpty(ColumnTests(excelData, headerRowIndex), start, end);
      return;
    }
    var col := start;
    while col < end
      invariant start <= col <= end
      invariant weekData == ScanColumns(ColumnTests(excelData, headerRowIndex), start, col)
    {
      weekData := ScanColumn(excelData, headerRowIndex, weekData, col);
      ScanStep(excelData, headerRowIndex, start, col);
      col := col + 1;
    }
  }

  /** The roles of one week: the columns from the week's date (column 1
      at the earliest) up to the next date (the header's end at the
      latest). */
  method ScanWeek(excelData: Grid, headerRowIndex: nat, weekDates: seq<WeekDate>, weekIdx: nat)
    returns (weekData: Columns)
    requires headerRowIndex < |excelData| && weekIdx < |weekDates|
    ensures weekData == WeekColumns(excelData, headerRowIndex, weekDates, weekIdx)
  {
    var width := |excelData[headerRowIndex]|;
    var weekDate := weekDates[weekIdx];
    var nextWeekIndex := if weekIdx < |weekDates| - 1 then weekDates[weekIdx + 1].index else width;
    var weekStart := if 1 < weekDate.index then weekDate.index else 1;
    var weekEnd := if width < nextWeekIndex then width else nextWeekIndex;
    weekData := ScanRange(excelData, headerRowIndex, weekStart, weekEnd);
  }

  /** Strategy 1: for each week date, scan the columns up to the next date
      and record the week when some role was found. */
  method KeywordStrategy(excelData: Grid, headerRowIndex: nat, weekDates: seq<WeekDate>)
    returns (weekMap: seq<(string, Columns)>)
    requires headerRowIndex < |excelData|
    ensures weekMap == Build(KeywordSteps(excelData, headerRowIndex, weekDates))
  {
    ghost var steps := KeywordSteps(excelData, headerRowIndex, weekDates);
    weekMap := [];
    var weekIdx := 0;
    while weekIdx < |weekDates|
      invariant weekIdx <= |weekDates|
      invariant weekMap == Build(steps[..weekIdx])
    {
      var weekKey := WeekKey(weekDates[weekIdx].date);
      var weekData := ScanWeek(excelData, headerRowIndex, weekDates, weekIdx);
      assert steps[weekIdx] == KeywordStep(excelData, headerRowIndex, weekDates, weekIdx);
      assert steps[..weekIdx + 1][..weekIdx] == steps[..weekIdx];
      if HasAny(weekData) {
        weekMap := Set(weekMap, weekKey, weekData);
      }
      weekIdx := weekIdx + 1;
    }
    assert steps[..|weekDates|] == steps;
  }

  /** Strategy 2: total, over 20, percent (and hours when there is room)
      in the columns after each date that has at least two columns before
      the next. */
  method PositionalStrategy(weekDates: seq<WeekDate>, width: nat) returns (weekMap: seq<(string, Columns)>)
    ensures weekMap == Build(PositionalSteps(weekDates, width))
  {
    ghost var steps := PositionalSteps(weekDates, width);
    weekMap := [];
    var weekIdx := 0;
    while weekIdx < |weekDates|
      invariant weekIdx <= |weekDates|
      invariant weekMap == Build(steps[..weekIdx])
    {
      var weekDate := weekDates[weekIdx];
      var nextWeekIndex := if weekIdx < |weekDates| - 1 then weekDates[weekIdx + 1].index else width;
      var colsBetween := nextWeekIndex - weekDate.index - 1;
      assert steps[..weekIdx + 1][..weekIdx] == steps[..weekIdx];
      if colsBetween >= 2 {
        weekMap := Set(weekMap, WeekKey(weekDate.date), Columns(
          Some(weekDate.index + 1), Some(weekDate.index + 2), Some(weekDate.index + 3),
          if colsBetween >= 4 then Some(weekDate.index + 4) else None));
      }
      weekIdx := weekIdx + 1;
    }
    assert steps[..|weekDates|] == steps;
  }

  /** Strategy 3: three columns per week from column 1, at most 52 weeks. */
  method FixedStrategy(width: nat) returns (weekMap: seq<(string, Columns)>)
    ensures weekMap == Build(FixedSteps(FixedWeekCount(width)))
  {
    var numWeeks := (width - 1) / 3;
    ghost var n := FixedWeekCount(width);
    weekMap := [];
    var weekIdx := 0;
    while weekIdx < numWeeks && weekIdx < 52
      invariant 0 <= weekIdx <= n
      invariant weekMap == Build(FixedSteps(n)[..weekIdx])
    {
      var startCol := 1 + weekIdx * 3;
      FixedBuildStep(n, weekIdx);
      weekMap := Set(weekMap, "Week " + NatText(weekIdx + 1), Columns(Some(startCol), Some(startCol + 1), Some(startCol + 2), None));
      weekIdx := weekIdx + 1;
    }
    assert FixedSteps(n)[..weekIdx] == FixedSteps(n);
  }

  lemma FixedBuildStep(n: nat, k: nat)
    requires k < n
    ensures Build(FixedSteps(n)[..k + 1])
      == Set(Build(FixedSteps(n)[..k]), "Week " + NatText(k + 1), Columns(Some(1 + k * 3), Some(1 + k * 3 + 1), Some(1 + k * 3 + 2), None))
  {
    var steps := FixedSteps(n);
    assert steps[..k + 1][..k] == steps[..k];
  }

  /** `excelData.slice(headerRowIndex + 1).filter(row => row && row.length > 0)`. */
  method DataRowsOf(excelData: Grid, headerRowIndex: nat) returns (dataRows: seq<Row>)
    ensures headerRowIndex < |excelData| ==> dataRows == Filter(excelData[headerRowIndex + 1..], NonEmptyRow)
    ensures headerRowIndex >= |excelData| ==> dataRows == []
  {
    dataRows := [];
    if headerRowIndex >= |excelData| {
      return;
    }
    var rest := excelData[headerRowIndex + 1..];
    var i := 0;
    while i < |rest|
      invariant i <= |rest|
      invariant dataRows == Filter(rest[..i], NonEmptyRow)
    {
      FilterAppend(rest[..i], rest[i], NonEmptyRow);
      assert rest[..i + 1] == rest[..i] + [rest[i]];
      if |rest[i]| > 0 {
        dataRows := dataRows + [rest[i]];
      }
      i := i + 1;
    }
    assert rest[..i] == rest;
  }

  /** The records of one data row, one per week of the map that has
      visits. */
  method RowRecordsOf(row: Row, provider: string, weekMap: seq<(string, Columns)>)
    returns (records: seq<ProviderWeekData>)
    requires provider == ProviderOf(row)
    ensures records == FilterMap(weekMap, RecordOf(row))
  {
    records := [];
    var w := 0;
    while w < |weekMap|
      invariant w <= |weekMap|
      invariant records == FilterMap(weekMap[..w], RecordOf(row))
    {
      var record := WeekRecord(row, provider, weekMap[w].0, weekMap[w].1);
      FilterMapStep(weekMap, w, RecordOf(row));
      if record.Some? {
        records := records + [record.value];
      }
      w := w + 1;
    }
    assert weekMap[..w] == weekMap;
  }

  /** The body of the loop over the week map: the record of one week, when
      it has visits. */
  method WeekRecord(row: Row, provider: string, week: string, indices: Columns) returns (record: Option<ProviderWeekData>)
    requires provider == ProviderOf(row)
    ensures record == RecordOf(row)((week, indices))
  {
    var totalVisits := GetValue(row, indices.total);
    var visitsOver20Min := GetValue(row, indices.over20);
    var percentOver20Min := GetValue(row, indices.percent);
    var hoursOn20PlusMin := if indices.hours.Some? then Some(GetValue(row, indices.hours)) else None;
    if percentOver20Min == 0.0 && totalVisits > 0.0 {
      percentOver20Min := visitsOver20Min / totalVisits * 100.0;
    }
    if totalVisits > 0.0 || visitsOver20Min > 0.0 {
      record := Some(ProviderWeekData(provider, week, totalVisits, visitsOver20Min, percentOver20Min,
        if hoursOn20PlusMin.Some? && hoursOn20PlusMin.value > 0.0 then hoursOn20PlusMin else None));
    } else {
      record := None;
    }
  }

  /** The week map: strategy 1, then strategy 2 when it found nothing but
      there are dates, then strategy 3 when the map is still empty. */
  method WeekMapOf(excelData: Grid, headerRowIndex: nat) returns (weekMap: seq<(string, Columns)>)
    requires headerRowIndex < |excelData|
    ensures weekMap == ResolveWeekMap(excelData, headerRowIndex)
  {
    var headers := excelData[headerRowIndex];
    var weekDates := CollectWeekDates(excelData, headerRowIndex);
    weekMap := KeywordStrategy(excelData, headerRowIndex, weekDates);
    if |weekDates| > 0 && |weekMap| == 0 {
      weekMap := PositionalStrategy(weekDates, |headers|);
    }
    if |weekMap| == 0 {
      weekMap := FixedStrategy(|headers|);
    }
  }

  /** The loop over the data rows: a row whose provider is reserved is
      skipped, any other gives the records of `RowRecordsOf`. */
  method EmitRecords(dataRows: seq<Row>, weekMap: seq<(string, Columns)>) returns (result: seq<ProviderWeekData>)
    ensures result == Flatten(ForEachKept(dataRows, KeepsRow, weekMap, RecordOf))
  {
    result := [];
    var r := 0;
    while r < |dataRows|
      invariant r <= |dataRows|
      invariant result == Flatten(ForEachKept(dataRows[..r], KeepsRow, weekMap, RecordOf))
    {
      var row := dataRows[r];
      var provider := TrimmedText(CellAt(row, 0));
      ForEachKeptAppend(dataRows[..r], row, KeepsRow, weekMap, RecordOf);
      assert dataRows[..r + 1] == dataRows[..r] + [row];
      if !(provider == "" || provider == "Provider" || Lower(provider) == "total") {
        var records := RowRecordsOf(row, provider, weekMap);
        result := result + records;
      }
      r := r + 1;
    }
    assert dataRows[..r] == dataRows;
  }

  /** The records of the rows below the header row. */
  method RecordsBelow(excelData: Grid, headerRowIndex: nat) returns (result: seq<ProviderWeekData>)
    requires headerRowIndex < |excelData|
    ensures result == RecordsUnder(excelData, headerRowIndex)
  {
    var dataRows := DataRowsOf(excelData, headerRowIndex);
    var weekMap := WeekMapOf(excelData, headerRowIndex);
    result := EmitRecords(dataRows, weekMap);
  }

  /** `parseProviderData`: an empty sheet gives no records; otherwise the
      records of every data row whose provider is not reserved, row by row
      and, within a row, in the order of the week map. */
  method ParseProviderData(excelData: Grid) returns (result: seq<ProviderWeekData>)
    ensures result == ProviderData(excelData)
    ensures excelData == [] ==> result == []
  {
    if |excelData| == 0 {
      return [];
    }
    var headerRowIndex := LocateHeader(excelData);
    result := RecordsBelow(excelData, headerRowIndex);
  }
}
