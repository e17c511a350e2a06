/** The records the dashboard passes between its parts. */
module Types {
  import opened Wrappers

  /** `ProviderWeekData`: one provider's visit counts for one week. An
      absent `hoursOn20PlusMin` is JavaScript's `undefined`. */
  datatype ProviderWeekData = ProviderWeekData(
    provider: string,
    week: string,
    totalVisits: real,
    visitsOver20Min: real,
    percentOver20Min: real,
    hoursOn20PlusMin: Option<real>)

  datatype Trend = Up | Down | Neutral

  /** `SummaryStats`: the figures shown on the summary cards. */
  datatype SummaryStats = SummaryStats(
    totalProviders: nat,
    avgPercentOver20Min: real,
    totalVisits: real,
    trend: Trend,
    trendValue: real)

  /** The filter settings the undo history and the saved presets store
      (`FilterState` of the history hook, `FilterPreset['filters']`). */
  datatype FilterSettings = FilterSettings(
    selectedProviders: seq<string>,
    weekRange: Option<(string, string)>,
    thresholdPercent: Option<real>,
    performanceTier: Option<string>,
    visitVolume: Option<string>,
    trend: Option<string>,
    minimumVisits: Option<real>)
}
