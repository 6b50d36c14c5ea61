/**
 * The team filter of the usage example: keep the latest matches in which one
 * of the two team names mentions the wanted team, ignoring case.
 */
module ExampleUsage {
  import opened Wrappers
  import opened Strings
  import opened Seqs
  import opened VlrScraper

  const TEAM_NAME := "Sentinels"

  /** `match.get(key, '')`. */
  function Get(m: MatchRecord, key: Key): string {
    if key in m then m[key] else ""
  }

  /** The comprehension's condition: the lower-cased team name occurs in the lower-cased `team1` or `team2`. */
  predicate FeaturesTeam(team: string, m: MatchRecord) {
    Contains(ToLower(Get(m, Team1)), ToLower(team)) || Contains(ToLower(Get(m, Team2)), ToLower(team))
  }

  /**
   * The list comprehension over `all_matches`: every match that features the
   * team is kept, as often as it occurs, and no other match is.
   */
  function FilterByTeam(team: string, all: seq<MatchRecord>): (r: seq<MatchRecord>)
    ensures |r| <= |all|
    ensures forall m :: m in r <==> m in all && FeaturesTeam(team, m)
    ensures forall m :: multiset(r)[m] == if FeaturesTeam(team, m) then multiset(all)[m] else 0
  {
    FilterSpec(m => FeaturesTeam(team, m), all);
    Filter(m => FeaturesTeam(team, m), all)
  }

  /** The kept matches keep their relative order: filtering a concatenation filters each part. */
  lemma FilterByTeamOrder(team: string, a: seq<MatchRecord>, b: seq<MatchRecord>)
    ensures FilterByTeam(team, a + b) == FilterByTeam(team, a) + FilterByTeam(team, b)
  {
    FilterConcat(m => FeaturesTeam(team, m), a, b);
  }

  /** A match with neither `team1` nor `team2` compares against `""` and is never kept. */
  lemma NoTeamsNeverKept(team: string, m: MatchRecord)
    requires team != ""
    requires Team1 !in m && Team2 !in m
    ensures !FeaturesTeam(team, m)
    ensures m !in FilterByTeam(team, [m])
  {
  }

  /** Lower-casing removes the difference between `SENTINELS`, `sentinels` and `Sentinels`. */
  lemma CaseInsensitiveTeam()
    ensures ToLower(TEAM_NAME) == "sentinels"
    ensures FeaturesTeam(TEAM_NAME, map[Team1 := "SENTINELS"])
    ensures FeaturesTeam(TEAM_NAME, map[Team1 := "100 Thieves", Team2 := "sentinels"])
  {
    assert ToLower("SENTINELS") == "sentinels";
    assert ToLower("sentinels") == "sentinels";
    assert IsPrefix("sentinels", "sentinels");
  }

  /**
   * `example_filter_matches_by_team`: the latest 20 matches filtered for
   * Sentinels. At most 20 are kept, each mentions `sentinels` in a lower-cased
   * team name, and the kept ones are exactly the filter of the latest matches.
   */
  method ExampleFilterMatchesByTeam(fetch: string -> Option<Html.Node>) returns (filteredMatches: seq<MatchRecord>)
    ensures |filteredMatches| <= 20
    ensures forall m :: m in filteredMatches ==>
      Contains(ToLower(Get(m, Team1)), "sentinels") || Contains(ToLower(Get(m, Team2)), "sentinels")
    ensures fetch(MATCHES_URL).None? ==> filteredMatches == []
    ensures fetch(MATCHES_URL).Some? ==>
      filteredMatches == FilterByTeam(TEAM_NAME,
        Collect(MatchCard, Take(Html.FindAll(fetch(MATCHES_URL).value, "a", "wf-module-item"), 20)))
  {
    var allMatches := GetLatestMatches(fetch, 20);
    CaseInsensitiveTeam();
    filteredMatches := FilterByTeam(TEAM_NAME, allMatches);
  }
}
