/** Season defaulting and the API paths the four fetchers request. */
module Endpoints {
  import opened Wrappers
  import opened PyStr

  /** Season used when the caller passes none (or an empty one). */
  const DefaultSeason := "2023"

  /** `if not season: season = "2023"`: `None` and `""` are falsy. */
  function SeasonOrDefault(season: Option<string>): (s: string)
    ensures s != ""
    ensures season.Some? && season.value != "" ==> s == season.value
    ensures season == None || season == Some("") ==> s == DefaultSeason
  {
    if season.None? || season.value == "" then DefaultSeason else season.value
  }

  function TeamsEndpoint(league: string, season: Option<string>): string {
    "competitions/" + league + "/teams?season=" + SeasonOrDefault(season)
  }

  function TeamEndpoint(team: Id): string {
    "teams/" + Render(Some(team))
  }

  /** Asks for twice the requested number of matches, to leave room for the
      non-finished ones that are filtered out afterwards. */
  function MatchesEndpoint(team: Id, season: Option<string>, limit: int): string {
    "teams/" + Render(Some(team)) + "/matches?season=" + SeasonOrDefault(season)
      + "&limit=" + IntToStr(limit * 2)
  }

  function StandingsEndpoint(league: string, season: Option<string>): string {
    "competitions/" + league + "/standings?season=" + SeasonOrDefault(season)
  }

  /** Whatever follows the last occurrence of `c` in `s` (all of `s` if `c` does
      not occur): how a reader of the query string finds the last parameter's value. */
  function AfterLast(s: string, c: char): (r: string)
    ensures |r| <= |s| && r == s[|s| - |r|..]
    ensures c !in r
    ensures r == s || (|r| < |s| && s[|s| - |r| - 1] == c)
  {
    if |s| == 0 then ""
    else if s[|s| - 1] == c then ""
    else AfterLast(s[..|s| - 1], c) + [s[|s| - 1]]
  }

  /** Omitting the season, passing an empty one, and passing "2023" request the
      same paths. */
  lemma DefaultSeasonSamePaths(league: string, team: Id, limit: int)
    ensures TeamsEndpoint(league, None) == TeamsEndpoint(league, Some(""))
                                        == TeamsEndpoint(league, Some(DefaultSeason))
    ensures StandingsEndpoint(league, None) == StandingsEndpoint(league, Some(""))
                                            == StandingsEndpoint(league, Some(DefaultSeason))
    ensures MatchesEndpoint(team, None, limit) == MatchesEndpoint(team, Some(""), limit)
                                               == MatchesEndpoint(team, Some(DefaultSeason), limit)
  {
  }

  lemma {:induction false} AfterLastOfSuffix(p: string, c: char, t: string)
    requires c !in t
    ensures AfterLast(p + [c] + t, c) == t
    decreases |t|
  {
    var s := p + [c] + t;
    if |t| == 0 {
      assert s[|s| - 1] == c;
    } else {
      var t' := t[..|t| - 1];
      assert s[..|s| - 1] == p + [c] + t';
      assert s[|s| - 1] == t[|t| - 1];
      AfterLastOfSuffix(p, c, t');
      assert t' + [t[|t| - 1]] == t;
    }
  }

  lemma NoEqualsInNumeral(n: int)
    ensures '=' !in IntToStr(n)
  {
    if n < 0 {
      NatToStrDigits(-n);
      assert IntToStr(n)[1..] == NatToStr(-n);
    } else {
      NatToStrDigits(n);
    }
  }

  /** A path ending in `&limit=<n>` has `n` as the value of its last parameter. */
  lemma LimitParameter(q: string, n: int)
    ensures ParseInt(AfterLast(q + "&limit=" + IntToStr(n), '=')) == Some(n)
  {
    var p := q + "&limit";
    assert q + "&limit=" + IntToStr(n) == p + ['='] + IntToStr(n);
    NoEqualsInNumeral(n);
    AfterLastOfSuffix(p, '=', IntToStr(n));
    ParseIntRoundTrip(n);
  }

  /** The matches path's last query parameter reads back as twice the limit
      (the over-fetch), not the limit itself. */
  lemma MatchesEndpointAsksDouble(team: Id, season: Option<string>, limit: int)
    ensures ParseInt(AfterLast(MatchesEndpoint(team, season, limit), '=')) == Some(2 * limit)
  {
    LimitParameter("teams/" + Render(Some(team)) + "/matches?season=" + SeasonOrDefault(season), limit * 2);
  }

  /** Different limits give different matches paths (for the same team and season),
      and equal limits the same one. */
  lemma MatchesEndpointLimitInjective(team: Id, season: Option<string>, a: int, b: int)
    ensures MatchesEndpoint(team, season, a) == MatchesEndpoint(team, season, b) <==> a == b
  {
    if MatchesEndpoint(team, season, a) == MatchesEndpoint(team, season, b) {
      MatchesEndpointAsksDouble(team, season, a);
      MatchesEndpointAsksDouble(team, season, b);
    }
  }

  /** Two explicit, non-empty seasons give the same league paths exactly when
      they are the same season. */
  lemma SeasonDistinguishesPaths(league: string, s1: string, s2: string)
    requires s1 != "" && s2 != ""
    ensures TeamsEndpoint(league, Some(s1)) == TeamsEndpoint(league, Some(s2)) <==> s1 == s2
    ensures StandingsEndpoint(league, Some(s1)) == StandingsEndpoint(league, Some(s2)) <==> s1 == s2
  {
    var p := "competitions/" + league + "/teams?season=";
    var q := "competitions/" + league + "/standings?season=";
    if TeamsEndpoint(league, Some(s1)) == TeamsEndpoint(league, Some(s2)) {
      assert s1 == TeamsEndpoint(league, Some(s1))[|p|..];
      assert s2 == TeamsEndpoint(league, Some(s2))[|p|..];
    }
    if StandingsEndpoint(league, Some(s1)) == StandingsEndpoint(league, Some(s2)) {
      assert s1 == StandingsEndpoint(league, Some(s1))[|q|..];
      assert s2 == StandingsEndpoint(league, Some(s2))[|q|..];
    }
  }
}
