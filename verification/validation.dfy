/** `validateData` of dataValidation.ts: the warnings the dashboard shows
    about a data set, one per suspicious record and rule, one per provider
    with a few weeks missing, ordered by severity. */
module DataValidation {
  import opened Wrappers
  import opened Strings
  import opened JsSet
  import opened Types
  import opened Folds
  import opened DataTransformer

  datatype WarningType = MissingData | SuspiciousValue | Inconsistency | Outlier

  datatype Severity = Low | Medium | High

  /** The text of a warning, by the template that builds it;
      `MessageText` renders it. */
  datatype Message =
    | NoDataAvailable
    | ZeroTotalText(provider: string, week: string)
    | OverTotalText(provider: string, week: string)
    | PercentText(provider: string, week: string)
    | HighCountText(provider: string, week: string, totalVisits: real)
    | MissingText(provider: string, count: nat)

  /** The `message` string each template yields. */
  function MessageText(m: Message): string {
    match m
    case NoDataAvailable => "No data available"
    case ZeroTotalText(p, w) => "Provider " + p + " has visits over 20 minutes but zero total visits in week " + w
    case OverTotalText(p, w) => "Provider " + p + " has more visits over 20 minutes than total visits in week " + w
    case PercentText(p, w) => "Provider " + p + " has percentage over 100% in week " + w
    case HighCountText(p, w, n) => "Provider " + p + " has unusually high visit count (" + NumberText(n) + ") in week " + w
    case MissingText(p, n) => "Provider " + p + " is missing data for " + NatText(n) + " week(s)"
  }

  /** `ValidationWarning`; an absent `provider` or `week` is `None`, and the
      `message` string is `MessageText(message)`. */
  datatype ValidationWarning = ValidationWarning(
    kind: WarningType,
    severity: Severity,
    message: Message,
    provider: Option<string>,
    week: Option<string>)

  /** `severityOrder`. */
  function Rank(s: Severity): int {
    match s
    case High => 3
    case Medium => 2
    case Low => 1
  }

  /** The only warning for an empty data set. */
  const NoData := ValidationWarning(MissingData, High, NoDataAvailable, None, None)

  function About(kind: WarningType, severity: Severity, message: Message, item: ProviderWeekData): ValidationWarning {
    ValidationWarning(kind, severity, message, Some(item.provider), Some(item.week))
  }

  function ZeroTotalWarning(item: ProviderWeekData): ValidationWarning {
    About(Inconsistency, High, ZeroTotalText(item.provider, item.week), item)
  }

  function OverTotalWarning(item: ProviderWeekData): ValidationWarning {
    About(Inconsistency, High, OverTotalText(item.provider, item.week), item)
  }

  function PercentWarning(item: ProviderWeekData): ValidationWarning {
    About(SuspiciousValue, High, PercentText(item.provider, item.week), item)
  }

  function HighCountWarning(item: ProviderWeekData): ValidationWarning {
    About(SuspiciousValue, Medium, HighCountText(item.provider, item.week, item.totalVisits), item)
  }

  /** The four record rules. */
  predicate ZeroTotal(item: ProviderWeekData) {
    item.totalVisits == 0.0 && item.visitsOver20Min > 0.0
  }

  predicate OverTotal(item: ProviderWeekData) {
    item.totalVisits > 0.0 && item.visitsOver20Min > item.totalVisits
  }

  predicate OverHundred(item: ProviderWeekData) {
    item.percentOver20Min > 100.0
  }

  predicate HighCount(item: ProviderWeekData) {
    item.totalVisits > 10000.0
  }

  function When(c: bool, w: ValidationWarning): seq<ValidationWarning> {
    if c then [w] else []
  }

  /** The warnings one record raises, in the order the rules are tried. */
  function RecordWarnings(item: ProviderWeekData): seq<ValidationWarning> {
    When(ZeroTotal(item), ZeroTotalWarning(item))
      + When(OverTotal(item), OverTotalWarning(item))
      + When(OverHundred(item), PercentWarning(item))
      + When(HighCount(item), HighCountWarning(item))
  }

  /** The record warnings of a data set, record by record. */
  function RecordsWarnings(data: seq<ProviderWeekData>): seq<ValidationWarning> {
    FlatMap(data, RecordWarnings)
  }

  function Weeks(data: seq<ProviderWeekData>): seq<string> {
    seq(|data|, i requires 0 <= i < |data| => data[i].week)
  }

  function WeekOf(provider: string): ProviderWeekData -> Option<string> {
    (d: ProviderWeekData) => if d.provider == provider then Some(d.week) else None
  }

  /** The weeks of a provider's records, repeats included. */
  function ProviderWeeks(data: seq<ProviderWeekData>, provider: string): seq<string> {
    FilterMap(data, WeekOf(provider))
  }

  function NotIn(ws: seq<string>): string -> bool {
    w => w !in ws
  }

  /** The weeks of `weeks` that `providerWeeks` lacks. */
  function MissingWeeks(weeks: seq<string>, providerWeeks: seq<string>): seq<string> {
    Filter(weeks, NotIn(providerWeeks))
  }

  function MissingWarning(provider: string, count: nat): ValidationWarning {
    ValidationWarning(MissingData, Low, MissingText(provider, count), Some(provider), None)
  }

  /** How many of the data set's distinct weeks a provider has no record for. */
  function MissingCount(data: seq<ProviderWeekData>, provider: string): nat {
    |MissingWeeks(Unique(Weeks(data)), ProviderWeeks(data, provider))|
  }

  /** A provider is reported when some weeks, but fewer than half of them,
      are missing. */
  predicate Gappy(data: seq<ProviderWeekData>, provider: string) {
    0 < MissingCount(data, provider) && (MissingCount(data, provider) as real) < (|Unique(Weeks(data))| as real) / 2.0
  }

  function GapWarning(data: seq<ProviderWeekData>): string -> Option<ValidationWarning> {
    provider => if Gappy(data, provider) then Some(MissingWarning(provider, MissingCount(data, provider))) else None
  }

  /** The missing-week warnings, one per reported provider, in order of the
      providers' first records. */
  function GapWarnings(data: seq<ProviderWeekData>): seq<ValidationWarning> {
    FilterMap(Unique(Providers(data)), GapWarning(data))
  }

  function SeverityIs(s: Severity): ValidationWarning -> bool {
    (w: ValidationWarning) => w.severity == s
  }

  /** The stable sort by descending `severityOrder`: the high warnings, then
      the medium, then the low, each group in its original order. */
  function BySeverity(ws: seq<ValidationWarning>): seq<ValidationWarning> {
    Filter(ws, SeverityIs(High)) + Filter(ws, SeverityIs(Medium)) + Filter(ws, SeverityIs(Low))
  }

  /** What `validateData` returns. */
  function Warnings(data: seq<ProviderWeekData>): seq<ValidationWarning> {
    if data == [] then [NoData]
    else BySeverity(RecordsWarnings(data) + GapWarnings(data))
  }

  /** Rules 1 and 2 exclude each other, so a record raises at most three
      warnings; each warning is raised exactly when its rule holds, and every
      one names the record's provider and week. */
  lemma RecordWarningsSpec(item: ProviderWeekData)
    ensures ZeroTotalWarning(item) in RecordWarnings(item) <==> ZeroTotal(item)
    ensures OverTotalWarning(item) in RecordWarnings(item) <==> OverTotal(item)
    ensures PercentWarning(item) in RecordWarnings(item) <==> OverHundred(item)
    ensures HighCountWarning(item) in RecordWarnings(item) <==> HighCount(item)
    ensures !(ZeroTotal(item) && OverTotal(item))
    ensures |RecordWarnings(item)| <= 3
    ensures forall w :: w in RecordWarnings(item) ==>
      w.kind != MissingData && w.provider == Some(item.provider) && w.week == Some(item.week)
  {
  }

  /** The ordering keeps every warning, as often as it occurs. */
  lemma BySeverityPermutation(ws: seq<ValidationWarning>)
    ensures multiset(BySeverity(ws)) == multiset(ws)
  {
    forall w
      ensures multiset(BySeverity(ws))[w] == multiset(ws)[w]
    {
      FilterMultiset(ws, SeverityIs(High), w);
      FilterMultiset(ws, SeverityIs(Medium), w);
      FilterMultiset(ws, SeverityIs(Low), w);
    }
  }

  /** The ordering puts higher severities first. */
  lemma BySeveritySorted(ws: seq<ValidationWarning>)
    ensures forall i, j :: 0 <= i < j < |BySeverity(ws)| ==> Rank(BySeverity(ws)[i].severity) >= Rank(BySeverity(ws)[j].severity)
  {
    var h, m, l := Filter(ws, SeverityIs(High)), Filter(ws, SeverityIs(Medium)), Filter(ws, SeverityIs(Low));
    FilterMembers(ws, SeverityIs(High));
    FilterMembers(ws, SeverityIs(Medium));
    FilterMembers(ws, SeverityIs(Low));
    var r := BySeverity(ws);
    assert forall i :: 0 <= i < |h| ==> r[i] == h[i] && h[i] in h;
    assert forall i :: |h| <= i < |h| + |m| ==> r[i] == m[i - |h|] && m[i - |h|] in m;
    assert forall i :: |h| + |m| <= i < |r| ==> r[i] == l[i - |h| - |m|] && l[i - |h| - |m|] in l;
  }

  /** The ordering is stable: the warnings of one severity keep their order. */
  lemma BySeverityStable(ws: seq<ValidationWarning>, s: Severity)
    ensures Filter(BySeverity(ws), SeverityIs(s)) == Filter(ws, SeverityIs(s))
  {
    var h, m, l := Filter(ws, SeverityIs(High)), Filter(ws, SeverityIs(Medium)), Filter(ws, SeverityIs(Low));
    FilterConcat(h + m, l, SeverityIs(s));
    FilterConcat(h, m, SeverityIs(s));
    FilterIdempotent(ws, SeverityIs(s));
    if s != High {
      FilterDisjoint(ws, SeverityIs(High), SeverityIs(s));
    }
    if s != Medium {
      FilterDisjoint(ws, SeverityIs(Medium), SeverityIs(s));
    }
    if s != Low {
      FilterDisjoint(ws, SeverityIs(Low), SeverityIs(s));
    }
  }

  /** The weeks a provider is reported missing: weeks some record has and
      none of the provider's records has, each once. */
  lemma MissingWeeksSpec(data: seq<ProviderWeekData>, provider: string)
    ensures Distinct(MissingWeeks(Unique(Weeks(data)), ProviderWeeks(data, provider)))
    ensures forall w :: w in MissingWeeks(Unique(Weeks(data)), ProviderWeeks(data, provider)) <==>
      (exists j :: 0 <= j < |data| && data[j].week == w)
      && !(exists j :: 0 <= j < |data| && data[j].provider == provider && data[j].week == w)
  {
    var weeks := Unique(Weeks(data));
    FilterDistinct(weeks, NotIn(ProviderWeeks(data, provider)));
    FilterMembers(weeks, NotIn(ProviderWeeks(data, provider)));
    FilterMapMembers(data, WeekOf(provider));
    assert forall w :: w in Weeks(data) <==> exists j :: 0 <= j < |data| && data[j].week == w by {
      forall w | w in Weeks(data)
        ensures exists j :: 0 <= j < |data| && data[j].week == w
      {
        var j :| 0 <= j < |Weeks(data)| && Weeks(data)[j] == w;
        assert data[j].week == w;
      }
      forall w | exists j :: 0 <= j < |data| && data[j].week == w
        ensures w in Weeks(data)
      {
        var j :| 0 <= j < |data| && data[j].week == w;
        assert Weeks(data)[j] == w;
      }
    }
  }

  /** The missing-week warnings: one for each provider with some weeks but
      fewer than half missing, giving how many, and no other. */
  lemma GapWarningsSpec(data: seq<ProviderWeekData>)
    ensures Distinct(GapWarnings(data))
    ensures forall w :: w in GapWarnings(data) <==>
      exists j :: 0 <= j < |data| && Gappy(data, data[j].provider)
        && w == MissingWarning(data[j].provider, MissingCount(data, data[j].provider))
  {
    GapWarningsDistinct(Unique(Providers(data)), data);
    forall w
      ensures w in GapWarnings(data) <==>
        exists j :: 0 <= j < |data| && Gappy(data, data[j].provider)
          && w == MissingWarning(data[j].provider, MissingCount(data, data[j].provider))
    {
      if w in GapWarnings(data) {
        GapWarningFrom(data, w);
      }
      if exists j :: 0 <= j < |data| && Gappy(data, data[j].provider)
          && w == MissingWarning(data[j].provider, MissingCount(data, data[j].provider)) {
        var j :| 0 <= j < |data| && Gappy(data, data[j].provider)
          && w == MissingWarning(data[j].provider, MissingCount(data, data[j].provider));
        GapWarningOf(data, j);
      }
    }
  }

  /** Every missing-week warning is about a reported provider. */
  lemma GapWarningFrom(data: seq<ProviderWeekData>, w: ValidationWarning)
    requires w in GapWarnings(data)
    ensures exists j :: (0 <= j < |data| && Gappy(data, data[j].provider)
      && w == MissingWarning(data[j].provider, MissingCount(data, data[j].provider)))
  {
    var providers := Unique(Providers(data));
    FilterMapMembers(providers, GapWarning(data));
    ProvidersMembers(data);
    var i :| 0 <= i < |providers| && GapWarning(data)(providers[i]) == Some(w);
    assert providers[i] in Providers(data);
    var d :| d in data && d.provider == providers[i];
    var j :| 0 <= j < |data| && data[j] == d;
  }

  /** A reported provider gets its missing-week warning. */
  lemma GapWarningOf(data: seq<ProviderWeekData>, j: nat)
    requires j < |data| && Gappy(data, data[j].provider)
    ensures MissingWarning(data[j].provider, MissingCount(data, data[j].provider)) in GapWarnings(data)
  {
    var providers := Unique(Providers(data));
    FilterMapMembers(providers, GapWarning(data));
    ProvidersMembers(data);
    assert data[j] in data;
    assert data[j].provider in providers;
    var i :| 0 <= i < |providers| && providers[i] == data[j].provider;
    assert GapWarning(data)(providers[i]).Some?;
  }

  /** Distinct providers give distinct warnings, since each names its own. */
  lemma {:induction false} GapWarningsDistinct(providers: seq<string>, data: seq<ProviderWeekData>)
    requires Distinct(providers)
    ensures Distinct(FilterMap(providers, GapWarning(data)))
    ensures forall w :: w in FilterMap(providers, GapWarning(data)) ==> w.provider.Some? && w.provider.value in providers
    decreases |providers|
  {
    if providers != [] {
      var init := providers[..|providers| - 1];
      GapWarningsDistinct(init, data);
      assert forall p :: p in init ==> p in providers;
    }
  }

  /** With at most two distinct weeks no provider is ever reported: one
      missing week is already half of them. */
  lemma FewWeeksNoGaps(data: seq<ProviderWeekData>)
    requires |Unique(Weeks(data))| <= 2
    ensures GapWarnings(data) == []
  {
    var providers := Unique(Providers(data));
    forall i | 0 <= i < |providers|
      ensures GapWarning(data)(providers[i]).None?
    {
      assert !Gappy(data, providers[i]);
    }
    FilterMapNone(providers, GapWarning(data));
  }

  /** `validateData` reports an empty data set with the one warning "No
      data available"; otherwise its warnings are exactly the record
      warnings of records breaking a rule and the missing-week warnings,
      each kept as often as raised. */
  lemma WarningsSpec(data: seq<ProviderWeekData>)
    ensures data == [] ==> Warnings(data) == [NoData]
    ensures data != [] ==> |Warnings(data)| == |RecordsWarnings(data)| + |GapWarnings(data)|
    ensures data != [] ==> forall w :: w in Warnings(data) <==>
      (exists j :: 0 <= j < |data| && w in RecordWarnings(data[j])) || w in GapWarnings(data)
  {
    if data != [] {
      BySeverityMembers(RecordsWarnings(data) + GapWarnings(data));
      FlatMapMembers(data, RecordWarnings);
    }
  }

  /** The ordering keeps the length and the members of the warnings. */
  lemma BySeverityMembers(ws: seq<ValidationWarning>)
    ensures |BySeverity(ws)| == |ws|
    ensures forall w :: w in BySeverity(ws) <==> w in ws
  {
    BySeverityPermutation(ws);
    assert |multiset(BySeverity(ws))| == |multiset(ws)|;
    forall w
      ensures w in BySeverity(ws) <==> w in ws
    {
      assert w in BySeverity(ws) <==> w in multiset(BySeverity(ws));
      assert w in ws <==> w in multiset(ws);
    }
  }

  /** Each record breaking a rule gets that rule's warning. */
  lemma RulesReported(data: seq<ProviderWeekData>, j: nat)
    requires j < |data|
    ensures ZeroTotal(data[j]) ==> ZeroTotalWarning(data[j]) in Warnings(data)
    ensures OverTotal(data[j]) ==> OverTotalWarning(data[j]) in Warnings(data)
    ensures OverHundred(data[j]) ==> PercentWarning(data[j]) in Warnings(data)
    ensures HighCount(data[j]) ==> HighCountWarning(data[j]) in Warnings(data)
  {
    WarningsSpec(data);
    RecordWarningsSpec(data[j]);
  }

  /** A provider gets a missing-data warning exactly when it has records and
      some, but fewer than half, of the distinct weeks lack one of its
      records. */
  lemma GapReported(data: seq<ProviderWeekData>, provider: string)
    ensures (exists w :: w in Warnings(data) && w.kind == MissingData && w.provider == Some(provider)) <==>
      (exists j :: 0 <= j < |data| && data[j].provider == provider) && Gappy(data, provider)
  {
    WarningsSpec(data);
    GapWarningsSpec(data);
    if data != [] {
      forall j | 0 <= j < |data|
        ensures forall w :: w in RecordWarnings(data[j]) ==> w.kind != MissingData
      {
        RecordWarningsSpec(data[j]);
      }
      if (exists j :: 0 <= j < |data| && data[j].provider == provider) && Gappy(data, provider) {
        var j :| 0 <= j < |data| && data[j].provider == provider;
        assert MissingWarning(provider, MissingCount(data, provider)) in GapWarnings(data);
      }
    }
  }

  /** The four checks of the `data.forEach` callback, for one record. */
  method CheckRecord(item: ProviderWeekData, warnings: seq<ValidationWarning>) returns (next: seq<ValidationWarning>)
    ensures next == warnings + RecordWarnings(item)
  {
    next := warnings;
    if item.totalVisits == 0.0 && item.visitsOver20Min > 0.0 {
      next := next + [ZeroTotalWarning(item)];
    }
    ghost var first := next;
    assert first == warnings + When(ZeroTotal(item), ZeroTotalWarning(item));
    if item.totalVisits > 0.0 && item.visitsOver20Min > item.totalVisits {
      next := next + [OverTotalWarning(item)];
    }
    assert next == first + When(OverTotal(item), OverTotalWarning(item));
    ghost var second := next;
    if item.percentOver20Min > 100.0 {
      next := next + [PercentWarning(item)];
    }
    assert next == second + When(OverHundred(item), PercentWarning(item));
    ghost var third := next;
    if item.totalVisits > 10000.0 {
      next := next + [HighCountWarning(item)];
    }
    assert next == third + When(HighCount(item), HighCountWarning(item));
    Regroup(warnings, When(ZeroTotal(item), ZeroTotalWarning(item)), When(OverTotal(item), OverTotalWarning(item)),
      When(OverHundred(item), PercentWarning(item)), When(HighCount(item), HighCountWarning(item)));
  }

  lemma Regroup<T>(w: seq<T>, a: seq<T>, b: seq<T>, c: seq<T>, d: seq<T>)
    ensures w + a + b + c + d == w + (a + b + c + d)
  {
  }

  /** The record checks over the whole data set. */
  method CheckRecords(data: seq<ProviderWeekData>) returns (warnings: seq<ValidationWarning>)
    ensures warnings == RecordsWarnings(data)
  {
    warnings := [];
    var i := 0;
    while i < |data|
      invariant 0 <= i <= |data|
      invariant warnings == FlatMap(data[..i], RecordWarnings)
    {
      warnings := CheckRecord(data[i], warnings);
      FlatMapStep(data, i, RecordWarnings);
      i := i + 1;
    }
    assert data[..i] == data;
  }

  /** The missing-week check of the `providers.forEach` callback. */
  method CheckProvider(data: seq<ProviderWeekData>, weeks: seq<string>, provider: string, warnings: seq<ValidationWarning>)
    returns (next: seq<ValidationWarning>)
    requires weeks == Unique(Weeks(data))
    ensures next == warnings + match GapWarning(data)(provider) case Some(w) => [w] case None => []
  {
    next := warnings;
    var providerWeeks := ProviderWeeks(data, provider);
    var missingWeeks := MissingWeeks(weeks, providerWeeks);
    if |missingWeeks| > 0 && (|missingWeeks| as real) < (|weeks| as real) / 2.0 {
      next := next + [MissingWarning(provider, |missingWeeks|)];
    }
  }

  /** The missing-week checks, provider by provider. */
  method CheckProviders(data: seq<ProviderWeekData>, warnings: seq<ValidationWarning>) returns (next: seq<ValidationWarning>)
    ensures next == warnings + GapWarnings(data)
  {
    var providers := Unique(Providers(data));
    var weeks := Unique(Weeks(data));
    next := warnings;
    var k := 0;
    while k < |providers|
      invariant 0 <= k <= |providers|
      invariant next == warnings + FilterMap(providers[..k], GapWarning(data))
    {
      var provider := providers[k];
      next := CheckProvider(data, weeks, provider, next);
      FilterMapStep(providers, k, GapWarning(data));
      k := k + 1;
    }
    assert providers[..k] == providers;
  }



  /** `validateData`. */
  method ValidateData(data: seq<ProviderWeekData>) returns (warnings: seq<ValidationWarning>)
    ensures warnings == Warnings(data)
  {
    if |data| == 0 {
      warnings := [NoData];
      return;
    }
    warnings := CheckRecords(data);
    warnings := CheckProviders(data, warnings);
    warnings := BySeverity(warnings);
  }
}
