/** `build_match_list_from_matches`: turns upstream match records into uniform
    records seen from one team (the perspective team): its goals, the
    opponent, home or away, and the result. */
module Normalizer {
  import opened Wrappers
  import opened PyStr

  /** A member read with `.get(key, default)`: an absent member gives the
      default, one stored as JSON `null` gives `None`. */
  datatype Member<T> = Absent | Null | Present(value: T) {
    function GetWithDefault(default: T): (r: Option<T>)
      ensures Absent? ==> r == Some(default)
      ensures Null? ==> r == None
      ensures Present? ==> r == Some(value)
    {
      match this
      case Absent => Some(default)
      case Null => None
      case Present(v) => Some(v)
    }
  }

  /** `homeTeam` / `awayTeam` of a match. The id is read with `.get('id')`, for
      which absent and `null` are both `None`. */
  datatype TeamRef = TeamRef(id: Option<Id>, name: Member<string>)

  /** `score.fullTime`: goals of each side; `None` when absent or null. */
  datatype FullTime = FullTime(home: Option<int>, away: Option<int>)

  datatype Score = Score(fullTime: Option<FullTime>)

  datatype Competition = Competition(name: Member<string>)

  /** An upstream match record as the normalizer reads it. Every member may be
      absent (`None`). */
  datatype RawMatch = RawMatch(
    utcDate: Option<string>,
    homeTeam: Option<TeamRef>,
    awayTeam: Option<TeamRef>,
    score: Option<Score>,
    competition: Option<Competition>)
  {
    /** The `.get(..., {})` chains of the source: a missing object reads as `{}`. */
    function HomeRef(): TeamRef { homeTeam.GetOr(TeamRef(None, Absent)) }
    function AwayRef(): TeamRef { awayTeam.GetOr(TeamRef(None, Absent)) }
    function Goals(): FullTime { score.GetOr(Score(None)).fullTime.GetOr(FullTime(None, None)) }

    function HomeId(): Option<Id> { HomeRef().id }
    function HomeName(): Option<string> { HomeRef().name.GetWithDefault("") }
    function AwayName(): Option<string> { AwayRef().name.GetWithDefault("") }
    function HomeScore(): Option<int> { Goals().home }
    function AwayScore(): Option<int> { Goals().away }
    function CompetitionName(): Option<string> { competition.GetOr(Competition(Absent)).name.GetWithDefault("") }
  }

  /** `'W'`, `'D'` and `'L'`. */
  datatype Outcome = Win | Draw | Loss {
    function Code(): string {
      match this
      case Win => "W"
      case Draw => "D"
      case Loss => "L"
    }

    /** The same match's outcome for the other side. */
    function Mirror(): Outcome {
      match this
      case Win => Loss
      case Draw => Draw
      case Loss => Win
    }
  }

  /** Mirror of a possibly unknown result; an unknown result stays unknown. */
  function MirrorResult(r: Option<Outcome>): Option<Outcome> {
    match r
    case None => None
    case Some(o) => Some(o.Mirror())
  }

  /** Status label stored on every normalized record. */
  const FinishedLabel := "Finalizado"

  /** A normalized record; `D` is the type of parsed timestamps. */
  datatype NormalizedMatch<D> = NormalizedMatch(
    date: Option<D>,
    opponent: Option<string>,
    goalsFor: Option<int>,
    goalsAgainst: Option<int>,
    result: Option<Outcome>,
    isHome: bool,
    status: string,
    competition: Option<string>,
    raw: RawMatch)

  /** `s.replace('Z', '+00:00')`: every `Z` becomes `+00:00` (see
      `ReplaceZChar` and `ReplaceZAppend`). */
  function ReplaceZ(s: string): (r: string)
    ensures 'Z' !in r
    ensures 'Z' !in s ==> r == s
  {
    if |s| == 0 then ""
    else (if s[0] == 'Z' then "+00:00" else [s[0]]) + ReplaceZ(s[1..])
  }

  /** On a single character the rewrite replaces a `Z` and keeps anything else. */
  lemma ReplaceZChar(c: char)
    ensures ReplaceZ([c]) == if c == 'Z' then "+00:00" else [c]
  {
    assert [c][1..] == [];
  }

  /** The rewrite works character by character: it distributes over
      concatenation, so with `ReplaceZChar` it fixes the whole result. */
  lemma {:induction false} ReplaceZAppend(p: string, q: string)
    ensures ReplaceZ(p + q) == ReplaceZ(p) + ReplaceZ(q)
    decreases |p|
  {
    if |p| == 0 {
      assert p + q == q;
    } else {
      assert (p + q)[0] == p[0];
      assert (p + q)[1..] == p[1..] + q;
      ReplaceZAppend(p[1..], q);
    }
  }

  /** `parse_date`: an empty or missing date gives `None`; otherwise the ISO
      parser (`fromIso`, `None` where `fromisoformat` raises) reads the string
      with every `Z` spelled as `+00:00`. */
  function ParseDate<D>(date: Option<string>, fromIso: string -> Option<D>): (r: Option<D>)
    ensures date.None? || date == Some("") ==> r.None?
    ensures date.Some? && date.value != "" ==> r == fromIso(ReplaceZ(date.value))
  {
    if date.None? || date.value == "" then None else fromIso(ReplaceZ(date.value))
  }

  /** The result for the side that scored `goalsFor` and conceded `goalsAgainst`;
      unknown (`None`) unless both are known. */
  function Classify(goalsFor: Option<int>, goalsAgainst: Option<int>): (r: Option<Outcome>)
    ensures r.None? <==> goalsFor.None? || goalsAgainst.None?
    ensures r == Some(Win) <==> goalsFor.Some? && goalsAgainst.Some? && goalsFor.value > goalsAgainst.value
    ensures r == Some(Draw) <==> goalsFor.Some? && goalsAgainst.Some? && goalsFor.value == goalsAgainst.value
    ensures r == Some(Loss) <==> goalsFor.Some? && goalsAgainst.Some? && goalsFor.value < goalsAgainst.value
  {
    if goalsFor.Some? && goalsAgainst.Some? then
      if goalsFor.value > goalsAgainst.value then Some(Win)
      else if goalsFor.value == goalsAgainst.value then Some(Draw)
      else Some(Loss)
    else None
  }

  /** Swapping the two sides mirrors the result. */
  lemma ClassifyMirror(a: Option<int>, b: Option<int>)
    ensures Classify(b, a) == MirrorResult(Classify(a, b))
  {
  }

  /** The perspective team plays at home exactly when its id and the home id
      render as the same string. */
  predicate IsHome(m: RawMatch, team: Id) {
    Render(Some(team)) == Render(m.HomeId())
  }

  /** One iteration of the loop of `build_match_list_from_matches`. */
  function NormalizeMatch<D>(m: RawMatch, team: Id, fromIso: string -> Option<D>): (r: NormalizedMatch<D>)
    ensures r.raw == m && r.status == FinishedLabel
    ensures r.isHome <==> Render(Some(team)) == Render(m.HomeId())
    ensures r.isHome ==> r.goalsFor == m.HomeScore() && r.goalsAgainst == m.AwayScore() && r.opponent == m.AwayName()
    ensures !r.isHome ==> r.goalsFor == m.AwayScore() && r.goalsAgainst == m.HomeScore() && r.opponent == m.HomeName()
    ensures r.result == Classify(r.goalsFor, r.goalsAgainst)
    ensures r.competition == m.CompetitionName()
    ensures r.date == ParseDate(m.utcDate, fromIso)
  {
    var home := IsHome(m, team);
    var gf := if home then m.HomeScore() else m.AwayScore();
    var ga := if home then m.AwayScore() else m.HomeScore();
    var opponent := if home then m.AwayName() else m.HomeName();
    NormalizedMatch(ParseDate(m.utcDate, fromIso), opponent, gf, ga, Classify(gf, ga), home,
                    FinishedLabel, m.CompetitionName(), m)
  }

  /** `build_match_list_from_matches(matches, team_id)`: one record per input
      match, in input order, none dropped. */
  method BuildMatchList<D>(matches: seq<RawMatch>, team: Id, fromIso: string -> Option<D>)
    returns (list: seq<NormalizedMatch<D>>)
    ensures |list| == |matches|
    ensures forall i :: 0 <= i < |matches| ==> list[i] == NormalizeMatch(matches[i], team, fromIso)
    ensures forall i :: 0 <= i < |matches| ==> list[i].raw == matches[i] && list[i].status == FinishedLabel
  {
    list := [];
    var i := 0;
    while i < |matches|
      invariant 0 <= i <= |matches|
      invariant |list| == i
      invariant forall k :: 0 <= k < i ==> list[k] == NormalizeMatch(matches[k], team, fromIso)
    {
      var record := NormalizeMatch(matches[i], team, fromIso);
      list := list + [record];
      i := i + 1;
    }
    forall k | 0 <= k < |matches|
      ensures list[k].raw == matches[k] && list[k].status == FinishedLabel
    {
      var record := NormalizeMatch(matches[k], team, fromIso);
      assert list[k] == record;
    }
  }

  /** The home team's view and any other team's view of the same match are
      mirror images: goals swapped, result mirrored, each other's opponent. */
  lemma PerspectiveMirror<D>(m: RawMatch, home: Id, other: Id, fromIso: string -> Option<D>)
    requires IsHome(m, home) && !IsHome(m, other)
    ensures var x := NormalizeMatch(m, home, fromIso);
            var y := NormalizeMatch(m, other, fromIso);
            && x.isHome && !y.isHome
            && x.goalsFor == y.goalsAgainst && x.goalsAgainst == y.goalsFor
            && y.result == MirrorResult(x.result)
            && x.opponent == m.AwayName() && y.opponent == m.HomeName()
  {
    var x := NormalizeMatch(m, home, fromIso);
    var y := NormalizeMatch(m, other, fromIso);
    ClassifyMirror(x.goalsFor, x.goalsAgainst);
  }

  /** Missing scores stay missing: no side gets a 0 and the result is unknown. */
  lemma MissingScoreStaysUnknown<D>(m: RawMatch, team: Id, fromIso: string -> Option<D>)
    requires m.score.None? || m.score.value.fullTime.None?
    ensures var r := NormalizeMatch(m, team, fromIso);
            r.goalsFor.None? && r.goalsAgainst.None? && r.result.None?
  {
  }

  /** Role resolution compares strings: the integer id 57 and the string "57"
      name the same home team, "057" does not, and a match with 57 at home and
      61 away gives team 61 the away score as its own. */
  lemma StringRoleResolution<D>(m: RawMatch, fromIso: string -> Option<D>)
    requires m.HomeId() == Some(IntId(57))
    requires m.AwayRef().id == Some(IntId(61))
    ensures IsHome(m, IntId(57)) && IsHome(m, StrId("57"))
    ensures !IsHome(m, StrId("057")) && !IsHome(m, IntId(61)) && !IsHome(m, StrId("61"))
    ensures var r := NormalizeMatch(m, IntId(61), fromIso);
            !r.isHome && r.goalsFor == m.AwayScore() && r.goalsAgainst == m.HomeScore()
  {
    assert NatToStr(5) == "5" && NatToStr(7) == "7";
    assert IntToStr(57) == NatToStr(5) + [DigitChar(7)] == "57";
    assert NatToStr(6) == "6" && NatToStr(1) == "1";
    assert IntToStr(61) == NatToStr(6) + [DigitChar(1)] == "61";
  }

  /** A perspective team matched by neither id is treated as the away side. */
  lemma UnrelatedTeamIsAway<D>(m: RawMatch, team: Id, fromIso: string -> Option<D>)
    requires !IsHome(m, team)
    ensures var r := NormalizeMatch(m, team, fromIso);
            !r.isHome && r.goalsFor == m.AwayScore() && r.opponent == m.HomeName()
  {
  }

  /** The opponent's name is read with `.get('name', '')`: a missing name gives
      `""`, but a name stored as `null` (as upstream sends for a team not yet
      decided) stays `None`. */
  lemma OpponentNameDefault<D>(m: RawMatch, team: Id, fromIso: string -> Option<D>)
    requires !IsHome(m, team)
    ensures var r := NormalizeMatch(m, team, fromIso);
            && (m.HomeRef().name == Absent ==> r.opponent == Some(""))
            && (m.HomeRef().name == Null ==> r.opponent == None)
            && (m.HomeRef().name.Present? ==> r.opponent == Some(m.HomeRef().name.value))
  {
  }

  /** A match whose home id is missing renders it as "None": an integer
      perspective id is then never at home, but the string "None" is. */
  lemma MissingHomeId(m: RawMatch, n: int)
    requires m.HomeId().None?
    ensures !IsHome(m, IntId(n))
    ensures IsHome(m, StrId("None"))
  {
    NoIntRendersAsNone(n);
  }

  /** Number of records with the given result. */
  function CountResult<D>(rs: seq<NormalizedMatch<D>>, o: Option<Outcome>): nat {
    if |rs| == 0 then 0 else (if rs[0].result == o then 1 else 0) + CountResult(rs[1..], o)
  }

  /** Over a series of matches between two teams (exactly one of them at home
      in each), the first team's wins are the second's losses, draws are
      shared, and unknown results are the same. */
  lemma {:induction false} HeadToHead<D>(ms: seq<RawMatch>, a: Id, b: Id, fromIso: string -> Option<D>,
                                         xs: seq<NormalizedMatch<D>>, ys: seq<NormalizedMatch<D>>)
    requires |xs| == |ms| && |ys| == |ms|
    requires forall i :: 0 <= i < |ms| ==> IsHome(ms[i], a) != IsHome(ms[i], b)
    requires forall i :: 0 <= i < |ms| ==> xs[i] == NormalizeMatch(ms[i], a, fromIso)
    requires forall i :: 0 <= i < |ms| ==> ys[i] == NormalizeMatch(ms[i], b, fromIso)
    ensures CountResult(xs, Some(Win)) == CountResult(ys, Some(Loss))
    ensures CountResult(xs, Some(Loss)) == CountResult(ys, Some(Win))
    ensures CountResult(xs, Some(Draw)) == CountResult(ys, Some(Draw))
    ensures CountResult(xs, None) == CountResult(ys, None)
    decreases |ms|
  {
    if |ms| > 0 {
      var m := ms[0];
      if IsHome(m, a) {
        PerspectiveMirror(m, a, b, fromIso);
      } else {
        PerspectiveMirror(m, b, a, fromIso);
      }
      HeadToHead(ms[1..], a, b, fromIso, xs[1..], ys[1..]);
    }
  }
}
