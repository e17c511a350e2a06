/** src/utils/dataTransformer.ts: the canonical form of week labels, their
    chronological order, and the distinct providers and weeks of a data
    set. */
module DataTransformer {
  import opened Wrappers
  import opened Strings
  import opened DateTokens
  import opened StableSort
  import opened JsSet
  import opened Types

  /** The canonical label of a week, "Week of M/D". */
  function Canonical(month: nat, day: nat): string {
    "Week of " + NatText(month) + "/" + NatText(day)
  }

  predicate IsDated(week: string) {
    FirstToken(week).Some?
  }

  /** `parseInt` of the month group of a dated label. */
  function MonthOf(week: string): nat
    requires IsDated(week)
  {
    DigitsValue(FirstToken(week).value.month)
  }

  /** `parseInt` of the day group of a dated label. */
  function DayOf(week: string): nat
    requires IsDated(week)
  {
    DigitsValue(FirstToken(week).value.day)
  }

  /** `normalizeWeekLabel`: a label holding a `M/D` token becomes
      "Week of M/D" with both numbers read by `parseInt`; any other label is
      kept as it is. */
  function NormalizeWeekLabel(week: string): string {
    if IsDated(week) then Canonical(MonthOf(week), DayOf(week)) else week
  }

  /** `extractDate`, reduced to the order it induces: November and December
      are placed in the year before the other months, so they form group 0
      and the other months group 1. Undated labels keep their text. */
  function LabelKey(week: string): SortKey {
    if IsDated(week) then
      var m := MonthOf(week);
      Dated(if m >= 11 then 0 else 1, m, DayOf(week))
    else Undated(week)
  }

  /** The key of the default `sort()`: the text alone. */
  function PlainKey(s: string): SortKey {
    Undated(s)
  }

  /** The result of `sortWeeks` (the second declaration, line 50). */
  function SortedWeeks(weeks: seq<string>): seq<string> {
    SortBy(weeks, LabelKey)
  }

  lemma MonthDayBound(week: string)
    requires IsDated(week)
    ensures MonthOf(week) < 100 && DayOf(week) < 100
  {
    var t := FirstToken(week).value;
    DigitsValueBound(t.month);
    DigitsValueBound(t.day);
    assert Pow10(1) == 10 && Pow10(2) == 100;
  }

  /** The canonical label reads back as the same month and day. */
  lemma CanonicalDated(month: nat, day: nat)
    requires month < 100 && day < 100
    ensures IsDated(Canonical(month, day))
    ensures MonthOf(Canonical(month, day)) == month && DayOf(Canonical(month, day)) == day
  {
    TokenOfWeekOf(month, day);
    DigitsValueOfNatText(month);
    DigitsValueOfNatText(day);
  }

  /** Normalising a dated label gives its canonical form with the same month
      and day, so the same sort key; an undated label is left unchanged. */
  lemma NormalizeKeepsDate(week: string)
    ensures IsDated(NormalizeWeekLabel(week)) == IsDated(week)
    ensures IsDated(week) ==>
      (NormalizeWeekLabel(week) == Canonical(MonthOf(week), DayOf(week))
       && MonthOf(NormalizeWeekLabel(week)) == MonthOf(week)
       && DayOf(NormalizeWeekLabel(week)) == DayOf(week))
    ensures !IsDated(week) ==> NormalizeWeekLabel(week) == week
    ensures LabelKey(NormalizeWeekLabel(week)) == LabelKey(week)
  {
    if IsDated(week) {
      MonthDayBound(week);
      CanonicalDated(MonthOf(week), DayOf(week));
    }
  }

  /** `normalizeWeekLabel` is idempotent. */
  lemma NormalizeIdempotent(week: string)
    ensures NormalizeWeekLabel(NormalizeWeekLabel(week)) == NormalizeWeekLabel(week)
  {
    NormalizeKeepsDate(week);
    if IsDated(week) {
      NormalizeKeepsDate(NormalizeWeekLabel(week));
    }
  }

  // ---------------------------------------------------------------------
  // extractDate with the clock's year, and why the key above stands for it

  datatype CalendarDate = CalendarDate(year: int, month: int, day: int)

  /** Chronological order of (year, month, day), which `getTime` follows for
      dates that exist in the calendar. */
  predicate DateLe(a: CalendarDate, b: CalendarDate) {
    a.year < b.year || (a.year == b.year && (a.month < b.month || (a.month == b.month && a.day <= b.day)))
  }

  /** `extractDate`, with `new Date().getFullYear()` passed as `currentYear`:
      November and December go to the year before, every other month to
      the current year. */
  function ExtractDate(week: string, currentYear: int): Option<CalendarDate> {
    if IsDated(week) then
      var m := MonthOf(week);
      Some(CalendarDate(if m >= 11 then currentYear - 1 else currentYear, m, DayOf(week)))
    else None
  }

  /** Whatever the clock says, comparing the dates `extractDate` builds is
      comparing the keys: the order does not depend on the current year. */
  lemma ExtractDateOrder(a: string, b: string, currentYear: int)
    requires IsDated(a) && IsDated(b)
    ensures DateLe(ExtractDate(a, currentYear).value, ExtractDate(b, currentYear).value)
        <==> KeyLe(LabelKey(a), LabelKey(b))
  {
  }

  // ---------------------------------------------------------------------
  // sortWeeks

  /** `sortWeeks(weeks)`. When no label is dated the source sorts the
      caller's array in place with the default `sort()` and returns it;
      otherwise it fills `weekDateMap` with the date of every dated label
      and returns a sorted copy, leaving the caller's array alone. */
  method SortWeeks(weeks: array<string>) returns (sorted: seq<string>)
    modifies weeks
    ensures sorted == SortedWeeks(old(weeks[..]))
    ensures weeks[..] == if exists i :: 0 <= i < |old(weeks[..])| && IsDated(old(weeks[..])[i])
                         then old(weeks[..]) else sorted
  {
    if weeks.Length == 0 {
      return weeks[..];
    }
    var dates := DatedKeys(weeks);
    if dates == [] {
      // return weeks.sort()
      sorted := SortBy(weeks[..], PlainKey);
      SortByAgree(weeks[..], PlainKey, LabelKey);
      WriteBack(weeks, sorted);
      return;
    }
    var weekDateMap := WeekDateMap(weeks);
    // [...weeks].sort((a, b) => compare(weekDateMap.get(a) || extractDate(a), ...))
    var lookup := w => if w in weekDateMap then weekDateMap[w] else LabelKey(w);
    sorted := SortBy(weeks[..], lookup);
    SortByAgree(weeks[..], lookup, LabelKey);
  }

  /** `weeks.map(extractDate).filter(d => d !== null)`, as keys. */
  method DatedKeys(weeks: array<string>) returns (dates: seq<SortKey>)
    ensures forall k :: k in dates ==> k.Dated?
    ensures dates == [] <==> forall j :: 0 <= j < weeks.Length ==> !IsDated(weeks[j])
  {
    dates := [];
    var i := 0;
    while i < weeks.Length
      invariant 0 <= i <= weeks.Length
      invariant forall k :: k in dates ==> k.Dated?
      invariant dates == [] <==> forall j :: 0 <= j < i ==> !IsDated(weeks[j])
    {
      if IsDated(weeks[i]) {
        dates := dates + [LabelKey(weeks[i])];
      }
      i := i + 1;
    }
  }

  /** The `weekDateMap` of `sortWeeks`: every dated label mapped to its date. */
  method WeekDateMap(weeks: array<string>) returns (weekDateMap: map<string, SortKey>)
    ensures forall w :: w in weekDateMap ==> IsDated(w) && weekDateMap[w] == LabelKey(w)
    ensures forall j :: 0 <= j < weeks.Length && IsDated(weeks[j]) ==> weeks[j] in weekDateMap
  {
    weekDateMap := map[];
    var i := 0;
    while i < weeks.Length
      invariant 0 <= i <= weeks.Length
      invariant forall w :: w in weekDateMap ==> IsDated(w) && weekDateMap[w] == LabelKey(w)
      invariant forall j :: 0 <= j < i && IsDated(weeks[j]) ==> weeks[j] in weekDateMap
    {
      if IsDated(weeks[i]) {
        weekDateMap := weekDateMap[weeks[i] := LabelKey(weeks[i])];
      }
      i := i + 1;
    }
  }

  /** The in-place effect of `weeks.sort()` on the caller's array. */
  method WriteBack(weeks: array<string>, sorted: seq<string>)
    requires |sorted| == weeks.Length
    modifies weeks
    ensures weeks[..] == sorted
  {
    var j := 0;
    while j < weeks.Length
      invariant 0 <= j <= weeks.Length
      invariant forall k :: 0 <= k < j ==> weeks[k] == sorted[k]
    {
      weeks[j] := sorted[j];
      j := j + 1;
    }
  }

  /** An empty list sorts to the empty list, and the result is always a
      permutation of the input. */
  lemma SortedWeeksPermutation(weeks: seq<string>)
    ensures |SortedWeeks(weeks)| == |weeks|
    ensures multiset(SortedWeeks(weeks)) == multiset(weeks)
    ensures weeks == [] ==> SortedWeeks(weeks) == []
  {
  }

  /** Sorting labels that `sortWeeks` already ordered changes nothing. */
  lemma SortedWeeksIdempotent(weeks: seq<string>)
    ensures SortedWeeks(SortedWeeks(weeks)) == SortedWeeks(weeks)
  {
    SortBySorted(SortedWeeks(weeks), LabelKey);
  }

  /** With no dated label, `sortWeeks` is the plain code-point sort. */
  lemma SortedWeeksUndated(weeks: seq<string>)
    requires forall i :: 0 <= i < |weeks| ==> !IsDated(weeks[i])
    ensures SortedWeeks(weeks) == SortBy(weeks, PlainKey)
    ensures forall i, j :: 0 <= i < j < |weeks| ==> LexLe(SortedWeeks(weeks)[i], SortedWeeks(weeks)[j])
  {
    SortByAgree(weeks, PlainKey, LabelKey);
    var r := SortedWeeks(weeks);
    forall i, j | 0 <= i < j < |r|
      ensures LexLe(r[i], r[j])
    {
      assert r[i] in multiset(weeks) && r[j] in multiset(weeks);
      assert KeyLe(LabelKey(r[i]), LabelKey(r[j]));
    }
  }

  /** With every label dated, November and December come before the other
      months, and within each of the two groups labels are in (month, day)
      order. */
  lemma SortedWeeksDated(weeks: seq<string>)
    requires forall i :: 0 <= i < |weeks| ==> IsDated(weeks[i])
    ensures forall i :: 0 <= i < |SortedWeeks(weeks)| ==> IsDated(SortedWeeks(weeks)[i])
    ensures forall i, j :: 0 <= i < j < |weeks| ==>
      var a, b := SortedWeeks(weeks)[i], SortedWeeks(weeks)[j];
      (MonthOf(b) >= 11 ==> MonthOf(a) >= 11)
      && ((MonthOf(a) >= 11) == (MonthOf(b) >= 11) ==>
           MonthOf(a) < MonthOf(b) || (MonthOf(a) == MonthOf(b) && DayOf(a) <= DayOf(b)))
  {
    var r := SortedWeeks(weeks);
    forall i | 0 <= i < |r|
      ensures IsDated(r[i])
    {
      assert r[i] in multiset(weeks);
    }
    forall i, j | 0 <= i < j < |r|
      ensures var a, b := r[i], r[j];
        (MonthOf(b) >= 11 ==> MonthOf(a) >= 11)
        && ((MonthOf(a) >= 11) == (MonthOf(b) >= 11) ==>
             MonthOf(a) < MonthOf(b) || (MonthOf(a) == MonthOf(b) && DayOf(a) <= DayOf(b)))
    {
      assert KeyLe(LabelKey(r[i]), LabelKey(r[j]));
    }
  }

  /** The sort key of a canonical label. */
  lemma CanonicalKey(month: nat, day: nat)
    requires month < 100 && day < 100
    ensures LabelKey(Canonical(month, day)) == Dated(if month >= 11 then 0 else 1, month, day)
  {
    CanonicalDated(month, day);
  }

  /** The example of a data set that runs from November into January. */
  lemma SortedWeeksAcrossNewYear()
    ensures SortedWeeks([Canonical(12, 20), Canonical(1, 5), Canonical(11, 29)])
         == [Canonical(11, 29), Canonical(12, 20), Canonical(1, 5)]
  {
    var a, b, c := Canonical(12, 20), Canonical(1, 5), Canonical(11, 29);
    CanonicalKey(12, 20);
    CanonicalKey(1, 5);
    CanonicalKey(11, 29);
    SortThree(a, b, c);
  }

  /** Sorting three labels where the second belongs after the first and the
      third before both. */
  lemma SortThree(a: string, b: string, c: string)
    requires KeyLe(LabelKey(a), LabelKey(b))
    requires KeyLt(LabelKey(c), LabelKey(a))
    ensures SortedWeeks([a, b, c]) == [c, a, b]
  {
    assert SortBy([a], LabelKey) == [a] by {
      assert [a][..0] == [];
    }
    assert SortBy([a, b], LabelKey) == [a, b] by {
      assert [a, b][..1] == [a];
      assert [a][1..] == [];
      assert Insert([a], b, LabelKey) == [a, b];
    }
    assert [a, b, c][..2] == [a, b];
    assert Insert([a, b], c, LabelKey) == [c, a, b];
  }

  // ---------------------------------------------------------------------
  // getUniqueProviders, getUniqueWeeks

  function Providers(data: seq<ProviderWeekData>): seq<string> {
    seq(|data|, i requires 0 <= i < |data| => data[i].provider)
  }

  function NormalizedWeeks(data: seq<ProviderWeekData>): seq<string> {
    seq(|data|, i requires 0 <= i < |data| => NormalizeWeekLabel(data[i].week))
  }

  /** `getUniqueProviders`: `Array.from(new Set(providers)).sort()`. */
  function GetUniqueProviders(data: seq<ProviderWeekData>): seq<string> {
    SortBy(Unique(Providers(data)), PlainKey)
  }

  /** `getUniqueWeeks`: the distinct normalised labels, in `sortWeeks` order. */
  function GetUniqueWeeks(data: seq<ProviderWeekData>): seq<string> {
    SortedWeeks(Unique(NormalizedWeeks(data)))
  }

  lemma SortByMembers(s: seq<string>, key: string -> SortKey)
    ensures forall x :: x in SortBy(s, key) <==> x in s
  {
    var r := SortBy(s, key);
    forall x
      ensures x in r <==> x in s
    {
      assert x in r <==> x in multiset(r);
      assert x in s <==> x in multiset(s);
    }
  }

  lemma ProvidersMembers(data: seq<ProviderWeekData>)
    ensures forall p :: p in Providers(data) <==> exists d :: d in data && d.provider == p
  {
    forall p
      ensures p in Providers(data) <==> exists d :: d in data && d.provider == p
    {
      if p in Providers(data) {
        var k :| 0 <= k < |data| && Providers(data)[k] == p;
        assert data[k] in data;
      }
      if exists d :: d in data && d.provider == p {
        var d :| d in data && d.provider == p;
        var k :| 0 <= k < |data| && data[k] == d;
        assert Providers(data)[k] == p;
      }
    }
  }

  lemma NormalizedWeeksMembers(data: seq<ProviderWeekData>)
    ensures forall w :: w in NormalizedWeeks(data) <==> exists d :: d in data && NormalizeWeekLabel(d.week) == w
    ensures forall w :: w in NormalizedWeeks(data) ==> NormalizeWeekLabel(w) == w
  {
    forall w | w in NormalizedWeeks(data)
      ensures exists d :: d in data && NormalizeWeekLabel(d.week) == w
      ensures NormalizeWeekLabel(w) == w
    {
      var k :| 0 <= k < |data| && NormalizedWeeks(data)[k] == w;
      assert data[k] in data;
      NormalizeIdempotent(data[k].week);
    }
    forall w | exists d :: d in data && NormalizeWeekLabel(d.week) == w
      ensures w in NormalizedWeeks(data)
    {
      var d :| d in data && NormalizeWeekLabel(d.week) == w;
      var k :| 0 <= k < |data| && data[k] == d;
      assert NormalizedWeeks(data)[k] == w;
    }
  }

  /** The providers of a data set, each once, in strictly ascending order. */
  lemma GetUniqueProvidersSpec(data: seq<ProviderWeekData>)
    ensures Distinct(GetUniqueProviders(data))
    ensures forall i, j :: 0 <= i < j < |GetUniqueProviders(data)| ==>
      LexLe(GetUniqueProviders(data)[i], GetUniqueProviders(data)[j])
    ensures forall p :: p in GetUniqueProviders(data) <==> exists d :: d in data && d.provider == p
  {
    var u := Unique(Providers(data));
    SortByDistinct(u, PlainKey);
    SortByMembers(u, PlainKey);
    ProvidersMembers(data);
    var r := GetUniqueProviders(data);
    forall i, j | 0 <= i < j < |r|
      ensures LexLe(r[i], r[j])
    {
      assert KeyLe(PlainKey(r[i]), PlainKey(r[j]));
    }
  }

  /** The distinct normalised week labels of a data set, in week order. */
  lemma GetUniqueWeeksSpec(data: seq<ProviderWeekData>)
    ensures Distinct(GetUniqueWeeks(data))
    ensures SortedBy(GetUniqueWeeks(data), LabelKey)
    ensures forall w :: w in GetUniqueWeeks(data) ==> NormalizeWeekLabel(w) == w
    ensures forall w :: w in GetUniqueWeeks(data) <==>
      exists d :: d in data && NormalizeWeekLabel(d.week) == w
  {
    var u := Unique(NormalizedWeeks(data));
    SortByDistinct(u, LabelKey);
    SortByMembers(u, LabelKey);
    NormalizedWeeksMembers(data);
  }
}
