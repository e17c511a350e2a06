/** src/utils/calculations.ts: the second `sortWeeks` (the one that adjusts
    years across a new year), `filterData` and `calculateSummaryStats`.
    Its `normalizeWeekLabel` is the same definition as the one of
    dataTransformer.ts and is modelled once, in `DataTransformer`. */
module Calculations {
  import opened Wrappers
  import opened Strings
  import opened StableSort
  import opened JsSet
  import opened Types
  import opened Folds
  import opened DataTransformer

  // ---------------------------------------------------------------------
  // sortWeeks

  /** The key `getTime()` gives a date, for dates that exist in the
      calendar: year, then month, then day. */
  function DateKey(d: CalendarDate): SortKey {
    Dated(d.year, d.month, d.day)
  }

  /** The key the final comparator uses for a label: its date from
      `weekDateMap`, else `extractDate`, else the label itself. */
  function LookupKey(weekDateMap: map<string, CalendarDate>, currentYear: int, w: string): SortKey {
    if w in weekDateMap then DateKey(weekDateMap[w])
    else match ExtractDate(w, currentYear)
      case Some(d) => DateKey(d)
      case None => Undated(w)
  }

  /** The date of a dated label is its key with the group shifted to the
      year: group 0 (November, December) is the year before. */
  lemma ExtractDateKey(w: string, currentYear: int)
    requires IsDated(w)
    ensures DateKey(ExtractDate(w, currentYear).value)
      == Dated(currentYear - 1 + LabelKey(w).group, LabelKey(w).month, LabelKey(w).day)
  {
  }

  /** `sortWeeks(weeks)` of calculations.ts, with the clock's year passed
      as `currentYear`. Whatever the year, it orders the labels exactly as
      the `sortWeeks` of dataTransformer.ts: the adjustment it makes when
      November/December and January–March dates are both present moves no
      date, because the earliest date then always lies in the year before. */
  method SortWeeksAcrossYears(weeks: seq<string>, currentYear: int) returns (sorted: seq<string>)
    ensures sorted == SortedWeeks(weeks)
  {
    if |weeks| == 0 {
      return weeks;
    }
    var dates := DatesOf(weeks, currentYear);
    if dates == [] {
      // return weeks.sort()
      sorted := SortBy(weeks, PlainKey);
      SortByAgree(weeks, PlainKey, LabelKey);
      return;
    }
    var earliest := Earliest(dates);
    var earliestYear := earliest.year;
    var hasNovDec, hasJanMar := Seasons(dates);
    assert hasNovDec ==> earliestYear == currentYear - 1 by {
      if hasNovDec {
        var j :| 0 <= j < |dates| && dates[j].month >= 11;
        assert DateLe(earliest, dates[j]);
      }
    }
    var weekDateMap := AdjustedDates(weeks, currentYear, hasNovDec && hasJanMar, earliestYear);
    var lookup := w => LookupKey(weekDateMap, currentYear, w);
    sorted := SortBy(weeks, lookup);
    LookupSameOrder(weeks, weekDateMap, currentYear);
    SortByOrderAgree(weeks, lookup, LabelKey);
  }

  /** A map holding only extracted dates orders the labels as their label
      keys do. */
  lemma LookupSameOrder(weeks: seq<string>, weekDateMap: map<string, CalendarDate>, currentYear: int)
    requires forall w :: w in weekDateMap ==> IsDated(w) && weekDateMap[w] == ExtractDate(w, currentYear).value
    ensures SameOrder(weeks, w => LookupKey(weekDateMap, currentYear, w), LabelKey)
  {
    forall a, b | a in weeks && b in weeks
      ensures KeyLe(LookupKey(weekDateMap, currentYear, a), LookupKey(weekDateMap, currentYear, b))
        <==> KeyLe(LabelKey(a), LabelKey(b))
    {
      if IsDated(a) {
        ExtractDateKey(a, currentYear);
      }
      if IsDated(b) {
        ExtractDateKey(b, currentYear);
      }
    }
  }

  /** `extractDate` with the clock's year fixed, as a function value. */
  function ExtractWith(currentYear: int): string -> Option<CalendarDate> {
    w => ExtractDate(w, currentYear)
  }

  /** `weeks.map(extractDate).filter(d => d !== null)`: the dates of the
      dated labels, in label order. */
  method DatesOf(weeks: seq<string>, currentYear: int) returns (dates: seq<CalendarDate>)
    ensures dates == FilterMap(weeks, ExtractWith(currentYear))
    ensures forall d :: d in dates ==> d.year == if d.month >= 11 then currentYear - 1 else currentYear
    ensures dates == [] <==> forall j :: 0 <= j < |weeks| ==> !IsDated(weeks[j])
  {
    dates := [];
    var i := 0;
    while i < |weeks|
      invariant 0 <= i <= |weeks|
      invariant dates == FilterMap(weeks[..i], ExtractWith(currentYear))
      invariant forall d :: d in dates ==> d.year == if d.month >= 11 then currentYear - 1 else currentYear
      invariant dates == [] <==> forall j :: 0 <= j < i ==> !IsDated(weeks[j])
    {
      FilterMapStep(weeks, i, ExtractWith(currentYear));
      var date := ExtractDate(weeks[i], currentYear);
      if date.Some? {
        dates := dates + [date.value];
      }
      i := i + 1;
    }
    assert weeks[..i] == weeks;
  }

  /** The earliest of the dates, by `getTime()`. */
  method Earliest(dates: seq<CalendarDate>) returns (earliest: CalendarDate)
    requires dates != []
    ensures earliest in dates
    ensures forall j :: 0 <= j < |dates| ==> DateLe(earliest, dates[j])
  {
    earliest := dates[0];
    var k := 1;
    while k < |dates|
      invariant 1 <= k <= |dates|
      invariant earliest in dates
      invariant forall j :: 0 <= j < k ==> DateLe(earliest, dates[j])
    {
      if !DateLe(earliest, dates[k]) {
        earliest := dates[k];
      }
      k := k + 1;
    }
  }

  /** `dates.some(d => d.getMonth() >= 10)` and `dates.some(d => d.getMonth() <= 2)`. */
  method Seasons(dates: seq<CalendarDate>) returns (hasNovDec: bool, hasJanMar: bool)
    ensures hasNovDec <==> exists j :: 0 <= j < |dates| && dates[j].month >= 11
    ensures hasJanMar <==> exists j :: 0 <= j < |dates| && dates[j].month <= 3
  {
    hasNovDec, hasJanMar := false, false;
    var k := 0;
    while k < |dates|
      invariant 0 <= k <= |dates|
      invariant hasNovDec <==> exists j :: 0 <= j < k && dates[j].month >= 11
      invariant hasJanMar <==> exists j :: 0 <= j < k && dates[j].month <= 3
    {
      if dates[k].month >= 11 {
        hasNovDec := true;
      }
      if dates[k].month <= 3 {
        hasJanMar := true;
      }
      k := k + 1;
    }
  }

  /** `weekDateMap`: each dated label's date, with January–March put in the
      year after `earliestYear` and November/December in `earliestYear` when
      `adjust` holds. Because the earliest date then lies in the year before
      the current one, that adjustment leaves every date as extracted. */
  method AdjustedDates(weeks: seq<string>, currentYear: int, adjust: bool, earliestYear: int)
    returns (weekDateMap: map<string, CalendarDate>)
    requires adjust ==> earliestYear == currentYear - 1
    ensures forall w :: w in weekDateMap <==> w in weeks && IsDated(w)
    ensures forall w :: w in weekDateMap ==> IsDated(w) && weekDateMap[w] == ExtractDate(w, currentYear).value
  {
    weekDateMap := map[];
    var i := 0;
    while i < |weeks|
      invariant 0 <= i <= |weeks|
      invariant forall w :: w in weekDateMap <==> w in weeks[..i] && IsDated(w)
      invariant forall w :: w in weekDateMap ==> IsDated(w) && weekDateMap[w] == ExtractDate(w, currentYear).value
    {
      assert weeks[..i + 1] == weeks[..i] + [weeks[i]];
      var date := ExtractDate(weeks[i], currentYear);
      if date.Some? {
        var d := date.value;
        var adjustedDate := d;
        if adjust {
          if d.month <= 3 {
            adjustedDate := CalendarDate(earliestYear + 1, d.month, d.day);
          } else if d.month >= 11 {
            adjustedDate := CalendarDate(earliestYear, d.month, d.day);
          }
        }
        weekDateMap := weekDateMap[weeks[i] := adjustedDate];
      }
      i := i + 1;
    }
    assert weeks[..i] == weeks;
  }

  // ---------------------------------------------------------------------
  // filterData

  /** The three filters `filterData` applies; `None` is `null`. */
  datatype Filters = Filters(
    selectedProviders: seq<string>,
    weekRange: Option<(string, string)>,
    thresholdPercent: Option<real>)

  /** `Array.prototype.indexOf`: the first position of `x`, or -1. */
  function IndexOf(s: seq<string>, x: string): (r: int)
    ensures -1 <= r < |s|
    ensures r >= 0 ==> s[r] == x && forall k :: 0 <= k < r ==> s[k] != x
    ensures r == -1 <==> x !in s
  {
    if s == [] then -1
    else if s[0] == x then 0
    else
      var k := IndexOf(s[1..], x);
      if k < 0 then -1 else k + 1
  }

  /** The week-range test: the item's normalised week must not sort before
      the start or after the end in `sortWeeks([start, end, week])`. */
  predicate InWeekRange(startWeek: string, endWeek: string, week: string) {
    var itemWeek := NormalizeWeekLabel(week);
    var allWeeks := SortedWeeks([startWeek, endWeek, itemWeek]);
    var startIndex := IndexOf(allWeeks, startWeek);
    var endIndex := IndexOf(allWeeks, endWeek);
    var itemIndex := IndexOf(allWeeks, itemWeek);
    !(itemIndex < startIndex || itemIndex > endIndex)
  }

  /** The callback of `data.filter`. */
  predicate Keep(filters: Filters, item: ProviderWeekData) {
    (|filters.selectedProviders| == 0 || item.provider in filters.selectedProviders)
    && (filters.weekRange.None? || InWeekRange(filters.weekRange.value.0, filters.weekRange.value.1, item.week))
    && (filters.thresholdPercent.None? || !(item.percentOver20Min < filters.thresholdPercent.value))
  }

  function FilterData(data: seq<ProviderWeekData>, filters: Filters): seq<ProviderWeekData> {
    Filter(data, item => Keep(filters, item))
  }

  /** The records kept are exactly those of the input that pass every
      filter: those of a selected provider (when any is selected), in the
      week range (when one is set), at or above the threshold (when one is
      set). */
  lemma FilterDataSpec(data: seq<ProviderWeekData>, filters: Filters)
    ensures |FilterData(data, filters)| <= |data|
    ensures forall item :: item in FilterData(data, filters) <==> item in data && Keep(filters, item)
    ensures |filters.selectedProviders| > 0 ==>
      forall item :: item in FilterData(data, filters) ==> item.provider in filters.selectedProviders
    ensures filters.thresholdPercent.Some? ==>
      forall item :: item in FilterData(data, filters) ==> item.percentOver20Min >= filters.thresholdPercent.value
  {
    FilterMembers(data, item => Keep(filters, item));
    FilterAll(data, item => Keep(filters, item));
  }

  /** `filterData` keeps the input order: filtering a concatenation
      filters each part. */
  lemma FilterDataOrder(a: seq<ProviderWeekData>, b: seq<ProviderWeekData>, filters: Filters)
    ensures FilterData(a + b, filters) == FilterData(a, filters) + FilterData(b, filters)
  {
    FilterConcat(a, b, item => Keep(filters, item));
  }

  /** With no provider selected, no week range and no threshold, the data
      is returned unchanged; and filtering is idempotent. */
  lemma FilterDataNoFilters(data: seq<ProviderWeekData>, filters: Filters)
    ensures filters == Filters([], None, None) ==> FilterData(data, filters) == data
    ensures FilterData(FilterData(data, filters), filters) == FilterData(data, filters)
  {
    FilterAll(data, item => Keep(filters, item));
    FilterIdempotent(data, item => Keep(filters, item));
  }

  /** In a sequence sorted by a key that tells its elements apart, the
      positions of two elements are in key order. */
  lemma IndexOrder(r: seq<string>, key: string -> SortKey, a: string, b: string)
    requires SortedBy(r, key) && a in r && b in r
    requires forall x, y :: x in r && y in r && key(x) == key(y) ==> x == y
    ensures IndexOf(r, a) <= IndexOf(r, b) <==> KeyLe(key(a), key(b))
  {
    var i, j := IndexOf(r, a), IndexOf(r, b);
    if i == j {
      KeyLeTotal(key(a), key(a));
    } else if j < i && KeyLe(key(a), key(b)) {
      assert KeyLe(key(r[j]), key(r[i]));
      KeyLeAntisymmetric(key(a), key(b));
    }
  }

  /** In such a sequence, `x` lies between `lo` and `hi` by position
      exactly when it does by key; and when `hi` comes before `lo` no
      element lies between them. */
  lemma BetweenByKeys(r: seq<string>, key: string -> SortKey, lo: string, hi: string, x: string)
    requires SortedBy(r, key) && lo in r && hi in r && x in r
    requires forall a, b :: a in r && b in r && key(a) == key(b) ==> a == b
    ensures KeyLe(key(lo), key(hi)) ==>
      ((!(IndexOf(r, x) < IndexOf(r, lo) || IndexOf(r, x) > IndexOf(r, hi)))
       <==> KeyLe(key(lo), key(x)) && KeyLe(key(x), key(hi)))
    ensures KeyLt(key(hi), key(lo)) ==> IndexOf(r, x) < IndexOf(r, lo) || IndexOf(r, x) > IndexOf(r, hi)
  {
    IndexOrder(r, key, lo, x);
    IndexOrder(r, key, x, hi);
    IndexOrder(r, key, lo, hi);
    if KeyLt(key(hi), key(lo)) && KeyLe(key(lo), key(x)) && KeyLe(key(x), key(hi)) {
      KeyLeTransitive(key(lo), key(x), key(hi));
    }
  }

  /** Normalised labels with the same key are the same label. */
  lemma NormalizedKeyInjective(x: string, y: string)
    requires NormalizeWeekLabel(x) == x && NormalizeWeekLabel(y) == y
    requires LabelKey(x) == LabelKey(y)
    ensures x == y
  {
  }

  /** For a range whose ends are normalised labels, a record is in the
      range exactly when its week's key lies between the keys of the ends,
      inclusive; a range whose end sorts before its start lets nothing
      through. */
  lemma InWeekRangeSpec(startWeek: string, endWeek: string, week: string)
    requires NormalizeWeekLabel(startWeek) == startWeek && NormalizeWeekLabel(endWeek) == endWeek
    ensures KeyLe(LabelKey(startWeek), LabelKey(endWeek)) ==>
      (InWeekRange(startWeek, endWeek, week) <==>
        KeyLe(LabelKey(startWeek), LabelKey(week)) && KeyLe(LabelKey(week), LabelKey(endWeek)))
    ensures KeyLt(LabelKey(endWeek), LabelKey(startWeek)) ==> !InWeekRange(startWeek, endWeek, week)
  {
    var itemWeek := NormalizeWeekLabel(week);
    NormalizeKeepsDate(week);
    NormalizeIdempotent(week);
    var s := [startWeek, endWeek, itemWeek];
    assert forall x :: x in s ==> x == startWeek || x == endWeek || x == itemWeek;
    SortedNormalized(s);
    BetweenByKeys(SortedWeeks([startWeek, endWeek, itemWeek]), LabelKey, startWeek, endWeek, itemWeek);
  }

  /** A range from an October week to a November week lets nothing
      through: November is put in the year before, so the end sorts before
      the start. */
  lemma OctoberToNovemberEmpty(week: string)
    ensures !InWeekRange(Canonical(10, 1), Canonical(11, 30), week)
  {
    var start, end := Canonical(10, 1), Canonical(11, 30);
    CanonicalKey(10, 1);
    CanonicalKey(11, 30);
    CanonicalDated(10, 1);
    CanonicalDated(11, 30);
    InWeekRangeSpec(start, end, week);
  }

  /** Sorting normalised labels: the result has the same labels, and no
      two of them share a key. */
  lemma SortedNormalized(s: seq<string>)
    requires forall x :: x in s ==> NormalizeWeekLabel(x) == x
    ensures forall x :: x in SortedWeeks(s) <==> x in s
    ensures forall x, y :: x in SortedWeeks(s) && y in SortedWeeks(s) && LabelKey(x) == LabelKey(y) ==> x == y
  {
    SortByMembers(s, LabelKey);
    forall x, y | x in SortedWeeks(s) && y in SortedWeeks(s) && LabelKey(x) == LabelKey(y)
      ensures x == y
    {
      assert x in s && y in s;
      NormalizedKeyInjective(x, y);
    }
  }

  // ---------------------------------------------------------------------
  // calculateSummaryStats

  /** `data.reduce((sum, d) => sum + d.totalVisits, 0)`. */
  function SumVisits(data: seq<ProviderWeekData>): real {
    if data == [] then 0.0 else SumVisits(data[..|data| - 1]) + data[|data| - 1].totalVisits
  }

  /** `data.reduce((sum, d) => sum + d.percentOver20Min, 0)`. */
  function SumPercent(data: seq<ProviderWeekData>): real {
    if data == [] then 0.0 else SumPercent(data[..|data| - 1]) + data[|data| - 1].percentOver20Min
  }

  function AveragePercent(data: seq<ProviderWeekData>): real
    requires |data| > 0
  {
    SumPercent(data) / |data| as real
  }

  /** `Math.round(x * 10) / 10`: `Math.round` rounds halves up. */
  function Round1(x: real): real {
    (x * 10.0 + 0.5).Floor as real / 10.0
  }

  /** The change of the average percent against the previous period, when
      that period has data. */
  function TrendValue(data: seq<ProviderWeekData>, previousPeriodData: Option<seq<ProviderWeekData>>): real
    requires |data| > 0
  {
    if previousPeriodData.Some? && |previousPeriodData.value| > 0 then
      AveragePercent(data) - AveragePercent(previousPeriodData.value)
    else 0.0
  }

  function TrendOf(trendValue: real): Trend {
    if trendValue > 0.5 then Up else if trendValue < -0.5 then Down else Neutral
  }

  function CalculateSummaryStats(data: seq<ProviderWeekData>, previousPeriodData: Option<seq<ProviderWeekData>>): SummaryStats {
    if |data| == 0 then SummaryStats(0, 0.0, 0.0, Neutral, 0.0)
    else
      var trendValue := TrendValue(data, previousPeriodData);
      SummaryStats(
        |Unique(Providers(data))|,
        Round1(AveragePercent(data)),
        SumVisits(data),
        TrendOf(trendValue),
        Round1(trendValue))
  }

  /** Sums over a concatenation add up. */
  lemma {:induction false} SumsConcat(a: seq<ProviderWeekData>, b: seq<ProviderWeekData>)
    ensures SumVisits(a + b) == SumVisits(a) + SumVisits(b)
    ensures SumPercent(a + b) == SumPercent(a) + SumPercent(b)
    decreases |b|
  {
    if b == [] {
      assert a + b == a;
    } else {
      SumsConcat(a, b[..|b| - 1]);
      assert (a + b)[..|a + b| - 1] == a + b[..|b| - 1];
    }
  }

  /** Percentages between 0 and 100 sum to between 0 and 100 per record. */
  lemma {:induction false} SumPercentBounds(data: seq<ProviderWeekData>)
    requires forall i :: 0 <= i < |data| ==> 0.0 <= data[i].percentOver20Min <= 100.0
    ensures 0.0 <= SumPercent(data) <= 100.0 * |data| as real
    decreases |data|
  {
    if data != [] {
      SumPercentBounds(data[..|data| - 1]);
    }
  }

  /** Rounding to one decimal moves a value by at most 0.05. */
  lemma Round1Close(x: real)
    ensures Round1(x) - 0.05 <= x < Round1(x) + 0.05
  {
    var f := (x * 10.0 + 0.5).Floor as real;
    assert f <= x * 10.0 + 0.5 < f + 1.0;
    assert Round1(x) == f / 10.0;
  }

  /** Rounding to one decimal keeps the order of values. */
  lemma Round1Monotone(x: real, y: real)
    requires x <= y
    ensures Round1(x) <= Round1(y)
  {
    var fx, fy := (x * 10.0 + 0.5).Floor, (y * 10.0 + 0.5).Floor;
    assert fx as real <= x * 10.0 + 0.5;
    assert y * 10.0 + 0.5 < fy as real + 1.0;
    assert fx <= fy;
    assert Round1(x) == fx as real / 10.0 && Round1(y) == fy as real / 10.0;
  }

  /** An empty data set gives zero providers, visits, average and trend
      value, and a neutral trend. */
  lemma SummaryOfEmpty(previousPeriodData: Option<seq<ProviderWeekData>>)
    ensures CalculateSummaryStats([], previousPeriodData) == SummaryStats(0, 0.0, 0.0, Neutral, 0.0)
  {
  }

  /** `totalProviders` counts the distinct providers, as many as
      `getUniqueProviders` lists; there is at least one and at most one per
      record. `totalVisits` is the sum of the records' visits. */
  lemma SummaryCounts(data: seq<ProviderWeekData>, previousPeriodData: Option<seq<ProviderWeekData>>)
    requires |data| > 0
    ensures var s := CalculateSummaryStats(data, previousPeriodData);
      s.totalProviders == |set d | d in data :: d.provider|
      && s.totalProviders == |GetUniqueProviders(data)|
      && 1 <= s.totalProviders <= |data|
      && s.totalVisits == SumVisits(data)
  {
    var ps := Providers(data);
    UniqueSize(ps);
    ProvidersMembers(data);
    assert (set x | x in ps) == set d | d in data :: d.provider;
  }

  /** With every percent between 0 and 100, the reported average is too. */
  lemma SummaryAverageBounds(data: seq<ProviderWeekData>, previousPeriodData: Option<seq<ProviderWeekData>>)
    requires |data| > 0
    requires forall i :: 0 <= i < |data| ==> 0.0 <= data[i].percentOver20Min <= 100.0
    ensures 0.0 <= CalculateSummaryStats(data, previousPeriodData).avgPercentOver20Min <= 100.0
  {
    SumPercentBounds(data);
    var avg := AveragePercent(data);
    assert 0.0 <= avg <= 100.0;
    Round1Monotone(0.0, avg);
    Round1Monotone(avg, 100.0);
    assert Round1(0.0) == 0.0 && Round1(100.0) == 100.0;
  }

  /** Without data for a previous period the trend is neutral with value 0;
      with it, the trend is up exactly when the average rose by more than
      half a point and down exactly when it fell by more than half a point,
      and the reported value is the change rounded to one decimal. */
  lemma SummaryTrend(data: seq<ProviderWeekData>, previousPeriodData: Option<seq<ProviderWeekData>>)
    requires |data| > 0
    ensures var s := CalculateSummaryStats(data, previousPeriodData);
      (previousPeriodData.None? || |previousPeriodData.value| == 0 ==> s.trend == Neutral && s.trendValue == 0.0)
    ensures var s := CalculateSummaryStats(data, previousPeriodData);
      previousPeriodData.Some? && |previousPeriodData.value| > 0 ==>
        var diff := AveragePercent(data) - AveragePercent(previousPeriodData.value);
        (s.trend == Up <==> diff > 0.5)
        && (s.trend == Down <==> diff < -0.5)
        && (s.trend == Neutral <==> -0.5 <= diff <= 0.5)
        && s.trendValue - 0.05 <= diff < s.trendValue + 0.05
  {
    Round1Close(TrendValue(data, previousPeriodData));
    assert Round1(0.0) == 0.0;
  }
}
