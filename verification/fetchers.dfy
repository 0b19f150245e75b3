/** The four data fetchers: what each makes of the body `football_data_get`
    returned (the filtering step), and each fetcher as a whole over an injected
    transport. Response caching is not part of this model. */
module Fetchers {
  import opened Wrappers
  import opened PyStr
  import opened PyJson
  import opened Client
  import opened Endpoints

  const EmptyList := JArr([])
  const EmptyDict := JObj([])

  /** `if not data or key not in data: return <default>` followed by `data[key]`:
      `None` when the default is returned, else the member's value. Membership
      and subscription follow Python, so a truthy body that is not a dict can raise. */
  function Field(data: Option<Json>, key: string): (r: Result<Option<Json>, PyError>)
    ensures data.None? || !Truthy(data.value) ==> r == Success(None)
    ensures data.Some? && data.value.JObj? ==>
              r == Success(if HasKey(data.value.members, key)
                           then Some(Lookup(data.value.members, key).value) else None)
    ensures r.Failure? ==> data.Some? && Truthy(data.value) && !data.value.JObj?
  {
    if data.None? || !Truthy(data.value) then Success(None)
    else match Contains(key, data.value)
      case Failure(e) => Failure(e)
      case Success(false) => Success(None)
      case Success(true) =>
        match Index(data.value, key)
        case Failure(e) => Failure(e)
        case Success(v) => Success(Some(v))
  }

  // ---------------------------------------------------------------------------
  // get_teams_in_league / get_team_by_id
  // ---------------------------------------------------------------------------

  /** `get_teams_in_league` after the fetch: the body's `teams` member, or `[]`. */
  function TeamsFromBody(data: Option<Json>): (r: Result<Json, PyError>)
    ensures data.None? || !Truthy(data.value) ==> r == Success(EmptyList)
    ensures data.Some? && data.value.JObj? ==>
              r == Success(Lookup(data.value.members, "teams").GetOr(EmptyList))
  {
    match Field(data, "teams")
    case Failure(e) => Failure(e)
    case Success(None) => Success(EmptyList)
    case Success(Some(v)) => Success(v)
  }

  /** `get_team_by_id` after the fetch: the body when truthy, else `{}`. */
  function TeamFromBody(data: Option<Json>): (r: Json)
    ensures r == EmptyDict || (data.Some? && r == data.value)
    ensures r == EmptyDict || Truthy(r)
    ensures data.Some? && Truthy(data.value) <==> r != EmptyDict
  {
    if data.Some? && Truthy(data.value) then data.value else EmptyDict
  }

  // ---------------------------------------------------------------------------
  // get_last_matches_for_team
  // ---------------------------------------------------------------------------

  /** `match.get('status') == 'FINISHED'` for a dict. */
  predicate IsFinished(j: Json) {
    Get(j, "status") == Success(JStr("FINISHED"))
  }

  predicate AllObjects(xs: seq<Json>) {
    forall i :: 0 <= i < |xs| ==> xs[i].JObj?
  }

  /** The FINISHED entries of `xs`, in their original order. */
  function FinishedOnly(xs: seq<Json>): (r: seq<Json>)
    ensures |r| <= |xs|
    ensures forall x :: x in r <==> x in xs && IsFinished(x)
  {
    if |xs| == 0 then []
    else if IsFinished(xs[0]) then [xs[0]] + FinishedOnly(xs[1..])
    else FinishedOnly(xs[1..])
  }

  /** The list comprehension of the source: `.get` raises `AttributeError` as
      soon as an entry is not a dict, otherwise the FINISHED entries are kept. */
  function FilterFinished(xs: seq<Json>): (r: Result<seq<Json>, PyError>)
    ensures r.Success? <==> AllObjects(xs)
    ensures r.Failure? ==> r.error == AttributeError
    ensures r.Success? ==> r.value == FinishedOnly(xs)
  {
    if AllObjects(xs) then Success(FinishedOnly(xs)) else Failure(AttributeError)
  }

  function Min(a: int, b: int): int { if a <= b then a else b }
  function Max(a: int, b: int): int { if a >= b then a else b }

  /** Python's `xs[:n]`: a prefix of `xs`; a negative `n` drops `-n` items
      from the end instead. */
  function SliceTo<T>(xs: seq<T>, n: int): (r: seq<T>)
    ensures n >= 0 ==> |r| == Min(n, |xs|)
    ensures n < 0 ==> |r| == Max(0, |xs| + n)
    ensures r == xs[..|r|]
  {
    if n >= 0 then xs[..Min(n, |xs|)] else xs[..Max(0, |xs| + n)]
  }

  /** `get_last_matches_for_team` after the fetch: the first `limit` FINISHED
      matches of the body's `matches` member, or `[]` when there is none. */
  function FinishedMatchesFromBody(data: Option<Json>, limit: int): (r: Result<seq<Json>, PyError>)
    ensures data.None? || !Truthy(data.value) ==> r == Success([])
    ensures data.Some? && data.value.JObj? && !HasKey(data.value.members, "matches") ==> r == Success([])
    ensures r.Success? ==> forall i :: 0 <= i < |r.value| ==> IsFinished(r.value[i])
    ensures r.Success? && limit >= 0 ==> |r.value| <= limit
  {
    match Field(data, "matches")
    case Failure(e) => Failure(e)
    case Success(None) => Success([])
    case Success(Some(v)) =>
      match Iterate(v)
      case Failure(e) => Failure(e)
      case Success(xs) =>
        match FilterFinished(xs)
        case Failure(e) => Failure(e)
        case Success(fs) =>
          assert forall i :: 0 <= i < |fs| ==> fs[i] in fs;
          Success(SliceTo(fs, limit))
  }

  /** Keeping finished entries distributes over concatenation: the filter keeps
      the relative order of the entries it retains. */
  lemma {:induction false} FinishedOnlyAppend(xs: seq<Json>, ys: seq<Json>)
    ensures FinishedOnly(xs + ys) == FinishedOnly(xs) + FinishedOnly(ys)
    decreases |xs|
  {
    if |xs| == 0 {
      assert xs + ys == ys;
    } else {
      assert (xs + ys)[1..] == xs[1..] + ys;
      FinishedOnlyAppend(xs[1..], ys);
    }
  }

  /** Number of FINISHED entries. */
  function CountFinished(xs: seq<Json>): nat {
    if |xs| == 0 then 0 else (if IsFinished(xs[0]) then 1 else 0) + CountFinished(xs[1..])
  }

  lemma {:induction false} FinishedOnlyLength(xs: seq<Json>)
    ensures |FinishedOnly(xs)| == CountFinished(xs)
    decreases |xs|
  {
    if |xs| > 0 {
      FinishedOnlyLength(xs[1..]);
    }
  }

  /** For a well-formed body, the matches returned are exactly the first
      `min(limit, #finished)` FINISHED matches of `matches`, in upstream order;
      a negative limit drops that many from the end, like Python slicing. */
  lemma FinishedMatchesExact(ms: seq<(string, Json)>, xs: seq<Json>, limit: int)
    requires Lookup(ms, "matches") == Some(JArr(xs))
    requires AllObjects(xs)
    ensures FinishedMatchesFromBody(Some(JObj(ms)), limit) == Success(SliceTo(FinishedOnly(xs), limit))
    ensures limit >= 0 ==>
              |FinishedMatchesFromBody(Some(JObj(ms)), limit).value| == Min(limit, CountFinished(xs))
    ensures limit < 0 ==>
              |FinishedMatchesFromBody(Some(JObj(ms)), limit).value| == Max(0, CountFinished(xs) + limit)
  {
    FinishedOnlyLength(xs);
  }

  // ---------------------------------------------------------------------------
  // get_league_standings
  // ---------------------------------------------------------------------------

  /** `standing['type'] == 'TOTAL'` holds without raising. */
  predicate IsTotal(j: Json) {
    j.JObj? && Lookup(j.members, "type") == Some(JStr("TOTAL"))
  }

  /** `standing['type']` does not raise. */
  predicate HasType(j: Json) {
    j.JObj? && HasKey(j.members, "type")
  }

  /** The loop over the standings groups: the `table` of the first TOTAL group,
      `[]` when there is none; looking up `type` (and then `table`) raises on a
      group reached before it that lacks them. */
  function FirstTotalTable(groups: seq<Json>): (r: Result<Json, PyError>)
    ensures (forall i :: 0 <= i < |groups| ==> HasType(groups[i]) && !IsTotal(groups[i])) ==>
              r == Success(EmptyList)
    ensures r.Success? && r.value != EmptyList ==> exists i :: 0 <= i < |groups| && IsTotal(groups[i])
  {
    if |groups| == 0 then Success(EmptyList)
    else match Index(groups[0], "type")
      case Failure(e) => Failure(e)
      case Success(t) =>
        if t == JStr("TOTAL") then Index(groups[0], "table")
        else
          var r := FirstTotalTable(groups[1..]);
          assert forall i :: 0 <= i < |groups| - 1 ==> groups[1..][i] == groups[i + 1];
          r
  }

  /** `get_league_standings` after the fetch: the `table` of the first TOTAL
      group of the body's `standings` member, `[]` when there is none. */
  function StandingsFromBody(data: Option<Json>): (r: Result<Json, PyError>)
    ensures data.None? || !Truthy(data.value) ==> r == Success(EmptyList)
    ensures data.Some? && data.value.JObj? && !HasKey(data.value.members, "standings") ==> r == Success(EmptyList)
  {
    match Field(data, "standings")
    case Failure(e) => Failure(e)
    case Success(None) => Success(EmptyList)
    case Success(Some(v)) =>
      match Iterate(v)
      case Failure(e) => Failure(e)
      case Success(groups) => FirstTotalTable(groups)
  }

  /** For a dict body whose `standings` member is a list, the standings are
      what the loop over that list returns. */
  lemma StandingsExact(ms: seq<(string, Json)>, groups: seq<Json>)
    requires Lookup(ms, "standings") == Some(JArr(groups))
    ensures StandingsFromBody(Some(JObj(ms))) == FirstTotalTable(groups)
  {
  }

  /** The first TOTAL group decides: earlier groups of other types are skipped,
      later groups are never looked at. */
  lemma {:induction false} FirstTotalWins(groups: seq<Json>, k: nat)
    requires k < |groups| && IsTotal(groups[k])
    requires forall i :: 0 <= i < k ==> HasType(groups[i]) && !IsTotal(groups[i])
    ensures FirstTotalTable(groups) == Index(groups[k], "table")
    decreases k
  {
    if k > 0 {
      assert HasType(groups[0]) && !IsTotal(groups[0]);
      assert Index(groups[0], "type") == Success(Lookup(groups[0].members, "type").value);
      FirstTotalWins(groups[1..], k - 1);
    } else {
      assert Index(groups[0], "type") == Success(JStr("TOTAL"));
    }
  }

  /** A group without a `type` that comes before any TOTAL group makes the
      fetcher raise `KeyError('type')` instead of skipping it. */
  lemma {:induction false} UntypedGroupRaises(groups: seq<Json>, k: nat)
    requires k < |groups| && groups[k].JObj? && !HasKey(groups[k].members, "type")
    requires forall i :: 0 <= i < k ==> HasType(groups[i]) && !IsTotal(groups[i])
    ensures FirstTotalTable(groups) == Failure(KeyError("type"))
    decreases k
  {
    if k > 0 {
      assert Index(groups[0], "type") == Success(Lookup(groups[0].members, "type").value);
      UntypedGroupRaises(groups[1..], k - 1);
    }
  }

  /** A group that is not a dict, reached before any TOTAL group, makes the
      fetcher raise `TypeError` (a list, string or `None` cannot be subscripted
      by `'type'`). */
  lemma {:induction false} NonDictGroupRaises(groups: seq<Json>, k: nat)
    requires k < |groups| && !groups[k].JObj?
    requires forall i :: 0 <= i < k ==> HasType(groups[i]) && !IsTotal(groups[i])
    ensures FirstTotalTable(groups) == Failure(TypeError)
    decreases k
  {
    if k > 0 {
      assert Index(groups[0], "type") == Success(Lookup(groups[0].members, "type").value);
      NonDictGroupRaises(groups[1..], k - 1);
    }
  }

  // ---------------------------------------------------------------------------
  // The fetchers as a whole, over an injected transport
  // ---------------------------------------------------------------------------

  /** Path requested, advisory flashed, value returned. */
  datatype Reply<T> = Reply(endpoint: string, advisory: Advisory, value: T)

  /** The body `football_data_get` hands to the fetcher, when it hands one. */
  function Body(t: Transport): (b: Option<Json>)
    ensures b.Some? <==> !Failed(t)
    ensures b.Some? ==> t.Response? && t.body == b
  {
    FootballDataGet(t).body
  }

  function GetTeamsInLeague(league: string, season: Option<string>, fetch: string -> Transport)
    : (r: Reply<Result<Json, PyError>>)
    ensures r.endpoint == TeamsEndpoint(league, season)
    ensures r.advisory == FootballDataGet(fetch(Url(r.endpoint))).advisory
    ensures Failed(fetch(Url(r.endpoint))) ==> r.value == Success(EmptyList)
    ensures var t := fetch(Url(r.endpoint));
            !Failed(t) && t.body.value.JObj? ==>
              r.value == Success(Lookup(t.body.value.members, "teams").GetOr(EmptyList))
  {
    var e := TeamsEndpoint(league, season);
    var t := fetch(Url(e));
    Reply(e, FootballDataGet(t).advisory, TeamsFromBody(Body(t)))
  }

  function GetTeamById(team: Id, fetch: string -> Transport): (r: Reply<Json>)
    ensures r.endpoint == TeamEndpoint(team)
    ensures r.advisory == FootballDataGet(fetch(Url(r.endpoint))).advisory
    ensures Failed(fetch(Url(r.endpoint))) ==> r.value == EmptyDict
    ensures var t := fetch(Url(r.endpoint));
            !Failed(t) && Truthy(t.body.value) ==> r.value == t.body.value
    ensures var t := fetch(Url(r.endpoint));
            !Failed(t) && !Truthy(t.body.value) ==> r.value == EmptyDict
  {
    var e := TeamEndpoint(team);
    var t := fetch(Url(e));
    Reply(e, FootballDataGet(t).advisory, TeamFromBody(Body(t)))
  }

  function GetLastMatchesForTeam(team: Id, season: Option<string>, limit: int, fetch: string -> Transport)
    : (r: Reply<Result<seq<Json>, PyError>>)
    ensures r.endpoint == MatchesEndpoint(team, season, limit)
    ensures r.advisory == FootballDataGet(fetch(Url(r.endpoint))).advisory
    ensures Failed(fetch(Url(r.endpoint))) ==> r.value == Success([])
    ensures r.value.Success? ==> forall i :: 0 <= i < |r.value.value| ==> IsFinished(r.value.value[i])
    ensures var t := fetch(Url(r.endpoint));
            forall xs :: !Failed(t) && t.body.value.JObj? && AllObjects(xs)
                         && Lookup(t.body.value.members, "matches") == Some(JArr(xs)) ==>
              r.value == Success(SliceTo(FinishedOnly(xs), limit))
  {
    var e := MatchesEndpoint(team, season, limit);
    var t := fetch(Url(e));
    var b := Body(t);
    var r := Reply(e, FootballDataGet(t).advisory, FinishedMatchesFromBody(b, limit));
    assert forall xs :: b.Some? && b.value.JObj? && AllObjects(xs)
                        && Lookup(b.value.members, "matches") == Some(JArr(xs)) ==>
             r.value == Success(SliceTo(FinishedOnly(xs), limit)) by {
      forall xs | b.Some? && b.value.JObj? && AllObjects(xs)
                  && Lookup(b.value.members, "matches") == Some(JArr(xs))
        ensures r.value == Success(SliceTo(FinishedOnly(xs), limit))
      {
        FinishedMatchesExact(b.value.members, xs, limit);
      }
    }
    r
  }

  function GetLeagueStandings(league: string, season: Option<string>, fetch: string -> Transport)
    : (r: Reply<Result<Json, PyError>>)
    ensures r.endpoint == StandingsEndpoint(league, season)
    ensures r.advisory == FootballDataGet(fetch(Url(r.endpoint))).advisory
    ensures Failed(fetch(Url(r.endpoint))) ==> r.value == Success(EmptyList)
    ensures var t := fetch(Url(r.endpoint));
            forall groups :: !Failed(t) && t.body.value.JObj?
                             && Lookup(t.body.value.members, "standings") == Some(JArr(groups)) ==>
              r.value == FirstTotalTable(groups)
  {
    var e := StandingsEndpoint(league, season);
    var t := fetch(Url(e));
    Reply(e, FootballDataGet(t).advisory, StandingsFromBody(Body(t)))
  }
}
