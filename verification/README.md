# Football-data fetch layer and match normalizer, modelled in Dafny

This project models the pure data logic of a small Flask application that
shows football results from the Football-Data.org v4 API (`app.py`):

- **the rate limiter** `rate_limited_request`: one global timestamp
  (`LAST_REQUEST_TIME`, initially 0) that keeps successive API calls at least
  `REQUEST_DELAY` = 6 seconds apart, over a logical clock (module `RateLimit`);
- **response classification** in `football_data_get`: HTTP status 429, 403,
  404, any other 400-599 status, an undecodable body, or a failed request all
  become `None`, with the category of the flashed message (warning, danger,
  none) as an output value (module `Client`);
- **season defaulting and API paths**: a falsy season becomes `"2023"`; the
  matches path asks for `limit * 2` matches (module `Endpoints`);
- **the four fetchers**' treatment of the body: the `teams` member or `[]`;
  the team body or `{}`; the first `limit` FINISHED matches; the `table` of the
  first `TOTAL` standings group (module `Fetchers`). The body is a parsed JSON
  value (module `PyJson`) and Python's truthiness, `in`, subscription, `.get` and
  iteration are modelled, including the `KeyError`, `TypeError` and
  `AttributeError` the source raises (and does not catch) on unexpected bodies;
- **the match normalizer** `build_match_list_from_matches`: home/away role by
  comparing `str(team_id)` with `str(home_id)`, goals for/against and opponent
  by role, result `W`/`D`/`L` or `None` when a score is missing (module
  `Normalizer`, with Python's `str()` of ids in module `PyStr`).

The HTTP transport is an input (`Client.Transport`: a status with an optional
parsed body, or a failed request); the composed fetchers take it as a function
from URL to transport outcome. The ISO-8601 parser `datetime.fromisoformat` is
a function parameter `fromIso` of the normalizer. Clock readings are inputs of
the rate limiter.

Behaviour of the code worth knowing, as modelled:

- the response cache is `functools.lru_cache` (access-order eviction, keyed by
  the raw arguments, so an omitted season and "2023" are different entries);
  it is left out (see below);
- the rate limiter has no lock; it is modelled as a sequential state machine
  only;
- a negative `limit` is handled the way Python slicing handles it (`xs[:-2]`
  drops two from the end);
- `raise_for_status` only raises for statuses 400-599, so a status of 600 or
  more still yields the body;
- a standings group reached before the first TOTAL one raises instead of
  being skipped: `KeyError('type')` for a dict without `type`, `TypeError`
  for a non-dict; a TOTAL group without `table` raises `KeyError('table')`.

## Model

| member | source | states |
|---|---|---|
| PyStr.ParseIntRoundTrip | app.py:194 | the decimal rendering `str(n)` of an integer id reads back as `n` |
| PyStr.IntToStrInjective | app.py:194 | two integer ids render to the same string exactly when they are equal, so string comparison of integer ids agrees with numeric comparison |
| PyStr.RenderAgreement | app.py:194 | two ids compare equal as strings iff they are equal integers, equal strings, or an integer and the string holding its decimal rendering |
| PyStr.NoIntRendersAsNone | app.py:182-194 | `str(None)` ("None") never equals the rendering of an integer id |
| Client.FootballDataGet | app.py:75-92 | a body is returned iff the status is outside 400-599 and the body parses; 429 gives a warning, 403 and other 400-599 statuses, undecodable bodies and failed requests give danger, 404 gives no advisory; advisory is warning iff status 429 |
| Client.FailedExactly | app.py:78-92 | the fetch yields no body exactly unless the response has a non-error status and a parsed body |
| Endpoints.SeasonOrDefault | app.py:98-99 | the season used is never empty: a given non-empty season is kept, `None` or `""` becomes "2023" |
| Endpoints.DefaultSeasonSamePaths | app.py:119-125 | no season, an empty season and "2023" request the same teams, standings and matches paths |
| Endpoints.SeasonDistinguishesPaths | app.py:102 | two non-empty seasons give the same teams (and standings) path iff they are equal |
| Endpoints.MatchesEndpointAsksDouble | app.py:125 | the `limit` query parameter of the matches path reads back as twice the requested limit |
| Endpoints.MatchesEndpointLimitInjective | app.py:125 | for a fixed team and season, the matches paths for two limits are equal iff the limits are |
| Fetchers.Field | app.py:104-107 | a missing or falsy body gives the default; a dict body gives its member when present, the default otherwise; only a truthy non-dict body can raise |
| Fetchers.TeamsFromBody | app.py:104-107 | the teams list is the body's `teams` member, or `[]` when the body is missing, falsy or lacks it |
| Fetchers.TeamFromBody | app.py:113-114 | the team is the body itself when truthy, and `{}` exactly when the body is missing or falsy |
| Fetchers.FinishedOnly | app.py:131 | the kept entries are exactly the FINISHED entries of the input, never more than the input |
| Fetchers.FinishedOnlyAppend | app.py:131 | filtering a concatenation is the concatenation of the filtered parts, so the filter keeps upstream order |
| Fetchers.FinishedOnlyLength | app.py:131 | the filter keeps one entry per FINISHED entry |
| Fetchers.FilterFinished | app.py:131 | the comprehension raises `AttributeError` iff some entry is not a dict, else returns the FINISHED entries |
| Fetchers.SliceTo | app.py:134 | `xs[:n]` is a prefix of `xs` of length `min(n, |xs|)` for `n >= 0` and `max(0, |xs| + n)` for negative `n` |
| Fetchers.FinishedMatchesFromBody | app.py:127-138 | a missing or falsy body or one without `matches` gives `[]`; every returned match is FINISHED; at most `limit` are returned |
| Fetchers.FinishedMatchesExact | app.py:127-134 | for a body whose `matches` is a list of dicts the result is the in-order prefix of the FINISHED subsequence of length `min(limit, #finished)` (`max(0, #finished + limit)` for a negative limit) |
| Fetchers.FirstTotalTable | app.py:152-156 | when every group is typed and none is TOTAL the result is `[]`; a non-empty result implies some TOTAL group exists |
| Fetchers.FirstTotalWins | app.py:152-154 | with all earlier groups typed and not TOTAL, the result is `standing['table']` of the first TOTAL group (`KeyError('table')` when it has none); later groups are ignored |
| Fetchers.UntypedGroupRaises | app.py:153 | a group without `type` before any TOTAL group makes the fetcher raise `KeyError('type')` |
| Fetchers.NonDictGroupRaises | app.py:153 | a group that is not a dict before any TOTAL group makes the fetcher raise `TypeError` |
| Fetchers.StandingsFromBody | app.py:149-156 | a missing or falsy body, or one without `standings`, gives `[]` |
| Fetchers.StandingsExact | app.py:149-156 | for a dict body whose `standings` is a list, the result is the loop's result on that list (the first TOTAL group's `table`, by FirstTotalWins) |
| Fetchers.GetTeamsInLeague | app.py:96-107 | requests the defaulted-season teams path and reports the fetch's advisory; a failed fetch returns `[]`; a successful dict body gives its `teams` member or `[]` |
| Fetchers.GetTeamById | app.py:110-114 | requests `teams/{id}` and reports the fetch's advisory; a failed fetch or a falsy body returns `{}`, a truthy body is returned as is |
| Fetchers.GetLastMatchesForTeam | app.py:117-138 | requests the matches path with twice the limit and reports the fetch's advisory; a failed fetch returns `[]`; every returned match is FINISHED; a successful body whose `matches` is a list of dicts gives the first `limit` FINISHED matches in order |
| Fetchers.GetLeagueStandings | app.py:141-156 | requests the defaulted-season standings path and reports the fetch's advisory; a failed fetch returns `[]`; a successful body whose `standings` is a list gives the first TOTAL group's table (the loop's result on that list) |
| RateLimit.SleepFor | app.py:60-64 | no sleep iff at least 6 s elapsed since the last request; otherwise a positive sleep that ends exactly 6 s after it |
| RateLimit.Spacing | app.py:57-66 | under an honest clock every call's new timestamp is at least the previous one plus 6 |
| RateLimit.RunSpacing | app.py:57-66 | over successive calls the `j`-th timestamp is at least `6 * (j - i)` after the `i`-th |
| RateLimit.RunFinalSpacing | app.py:57-66 | the last timestamp of a run of `n` calls is at least `6 * n` after the initial state and `6 * (n - 1 - i)` after the `i`-th |
| RateLimit.RateLimitedRequests | app.py:57-66 | running the calls in sequence sleeps exactly when less than 6 s elapsed, for `REQUEST_DELAY - elapsed` seconds; each call's state is the previous call's second clock reading, the final state is the last call's; the final timestamp is at least `6 * n` after the initial state and `6 * (n - 1 - i)` after the `i`-th call |
| RateLimit.FirstCallDoesNotSleep | app.py:34-35 | from the initial state 0, a call at clock time 6 or later does not sleep |
| Normalizer.ReplaceZ | app.py:166 | the rewritten date contains no `Z`, and a date without `Z` is unchanged |
| Normalizer.ReplaceZChar | app.py:166 | a single `Z` becomes `+00:00` and any other character is kept |
| Normalizer.ReplaceZAppend | app.py:166 | the rewrite distributes over concatenation, so every `Z` (not only a trailing one) is rewritten and nothing else changes |
| Normalizer.ParseDate | app.py:161-168 | a missing or empty date gives `None`; otherwise the parser sees the date with `Z` rewritten |
| Normalizer.Classify | app.py:205-214 | the result is unknown iff a score is missing; otherwise `W`, `D`, `L` exactly when goals for are greater than, equal to, less than goals against |
| Normalizer.ClassifyMirror | app.py:206-214 | swapping goals for and against mirrors the result (`W`/`L` swap, `D` and unknown stay) |
| Normalizer.NormalizeMatch | app.py:176-227 | the record passes the match through as `raw`, is labelled "Finalizado", is home iff `str(team_id) == str(home_id)`, takes home score/away score/away name when home and the swapped three otherwise (a `null` name stays `None`), classifies its own goals, and carries the competition name (`""` when missing) and the parsed date |
| Normalizer.OpponentNameDefault | app.py:184-185 | a missing opponent name gives `""`, a name stored as `null` stays `None`, a present name is copied |
| Normalizer.BuildMatchList | app.py:170-233 | one record per input match, in input order, each the normalization of its match with `raw` the match and status "Finalizado" |
| Normalizer.PerspectiveMirror | app.py:194-214 | the home team's record and a non-home team's record of the same match have swapped goals, mirrored results and each other's opponents |
| Normalizer.MissingScoreStaysUnknown | app.py:180-214 | a match without a full-time score gives no goals to either side (never 0) and an unknown result |
| Normalizer.StringRoleResolution | app.py:194-203 | integer id 57 and string "57" are both the home team, "057" is not, and away team 61 gets the away score as its goals for |
| Normalizer.UnrelatedTeamIsAway | app.py:199-203 | a team matching neither id is treated as the away side |
| Normalizer.MissingHomeId | app.py:182-194 | with the home id missing, an integer perspective id is never home but the string "None" is |
| Normalizer.HeadToHead | app.py:194-214 | over matches between two teams, one team's wins equal the other's losses, and draws and unknown results are equal |

## Left out

- `functools.lru_cache` on the four fetchers: a library cache whose source is
  not part of this model (access-order eviction, keyed by raw arguments,
  caches failure defaults too); the fetchers are modelled uncached.
- The wait in `rate_limited_request` that precedes each request is modelled
  by `RateLimit` on its own; the composed fetchers in `Fetchers` leave it out.
- The HTTP transport (`requests.get`), request headers, timeout and the API
  key configuration: the transport outcome is an input.
- The text of flashed messages and Flask's session storage: only the message
  category is modelled; the connection-error message embeds the exception text.
- JSON decoding: bodies are given already parsed; JSON numbers are integers
  (floats are not modelled), and a body that does not parse is an absent body.
  That the decode error is caught as a `RequestException` holds for versions
  of `requests` whose `JSONDecodeError` derives from it.
- Normalizer.NormalizeMatch: match records are typed (ids are integers or
  strings, scores integers or absent, names absent, `null` or a string); a
  JSON `null` in place of a whole nested object (`homeTeam: null`), which
  makes the source raise, and scores of other JSON types are not represented. The decoding of a fetched JSON match into this record is
  not modelled.
- Normalizer.ParseDate: `datetime.fromisoformat` is a parameter; only the
  empty/missing case and the `Z` rewrite are modelled.
- Fetchers.FilterFinished: iterating a dict visits one entry per JSON member,
  so a dict with duplicated keys is visited more often than Python would;
  every outcome depends only on emptiness, so results agree.
- RateLimit.SleepFor: the clock is an integer logical clock (whole seconds);
  fractional `time.time()` readings and floating-point rounding are not modelled. The check-sleep-stamp
  sequence has no lock in the source; concurrent callers are not modelled.
- The count of matches with goals and all `DEBUG` prints (debug output only).
- Flask routes and query-string parsing, all matplotlib charts and the
  chronological sorting done for them, the `LEAGUES`/`SEASONS` display tables,
  and the ThingSpeak configuration: presentation and configuration, not data
  logic.
