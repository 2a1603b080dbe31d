/**
 * The keyword-idea dictionary that the ads client produces and the CSV
 * export consumes. A field holding `None` stands for a key that is absent
 * from the dictionary; for the competition index and the two bids it also
 * stands for a key present with the value None, which every reader treats
 * the same way.
 */
module Keywords {
  import opened Wrappers

  /** One entry of `monthly_breakdown`. */
  datatype MonthlyVolume = MonthlyVolume(year: int, month: string, monthlySearches: int)

  datatype KeywordIdea = KeywordIdea(
    keyword: Option<string>,
    avgMonthlySearches: Option<int>,
    competition: Option<string>,
    competitionIndex: Option<int>,
    lowTopOfPageBidMicros: Option<int>,
    highTopOfPageBidMicros: Option<int>,
    monthlyBreakdown: Option<seq<MonthlyVolume>>)

  /** The sort key of `get_top_keywords_by_volume`: a missing volume counts as 0. */
  function Volume(idea: KeywordIdea): int {
    idea.avgMonthlySearches.GetOr(0)
  }
}
