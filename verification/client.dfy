/** `football_data_get`: one call to the Football-Data.org v4 API, with the
    HTTP outcome classified into a parsed body or `None`, plus the advisory
    message category it flashes to the user. The HTTP transport itself is an
    input: what `requests.get` returned, or that it raised. */
module Client {
  import opened Wrappers
  import opened PyJson

  /** Every endpoint is resolved against this base URL. */
  const BaseUrl := "https://api.football-data.org/v4/"

  function Url(endpoint: string): string {
    BaseUrl + endpoint
  }

  /** Outcome of `requests.get(url, headers=..., timeout=...)`. */
  datatype Transport =
    | Response(status: int, body: Option<Json>)   // body `None`: not decodable as JSON
    | RequestFailed                                // timeout, DNS failure, refused connection, ...

  /** Category of the message passed to Flask's `flash`, if any. */
  datatype Advisory = NoAdvisory | Warning | Danger

  /** What `football_data_get` returns (`body`, `None` for `None`) and flashes. */
  datatype Fetched = Fetched(body: Option<Json>, advisory: Advisory)

  /** Status codes for which `raise_for_status` raises `HTTPError`
      (client errors 400-499 and server errors 500-599). */
  predicate RaisesForStatus(status: int) {
    400 <= status < 600
  }

  /** Classifies a transport outcome. 429 warns, 403 reports an invalid key,
      404 is silent; any other status that `raise_for_status` rejects, a body
      that is not JSON, and a failed request are all caught as
      `RequestException` and reported as a connection error. */
  function FootballDataGet(t: Transport): (r: Fetched)
    ensures r.body.Some? <==> t.Response? && !RaisesForStatus(t.status) && t.body.Some?
    ensures r.body.Some? ==> r.body == t.body && r.advisory == NoAdvisory
    ensures r.advisory == Warning <==> t.Response? && t.status == 429
    ensures r.advisory == NoAdvisory <==> r.body.Some? || (t.Response? && t.status == 404)
    ensures t.Response? && t.status == 403 ==> r == Fetched(None, Danger)
    ensures t.Response? && RaisesForStatus(t.status) && t.status != 429 && t.status != 404 ==>
              r == Fetched(None, Danger)
    ensures t.RequestFailed? ==> r == Fetched(None, Danger)
  {
    match t
    case RequestFailed => Fetched(None, Danger)
    case Response(status, body) =>
      if status == 429 then Fetched(None, Warning)
      else if status == 403 then Fetched(None, Danger)
      else if status == 404 then Fetched(None, NoAdvisory)
      else if RaisesForStatus(status) then Fetched(None, Danger)
      else if body.None? then Fetched(None, Danger)
      else Fetched(body, NoAdvisory)
  }

  /** The fetch produced no body, so every fetcher falls back to its default. */
  predicate Failed(t: Transport) {
    FootballDataGet(t).body.None?
  }

  /** A response with a parsed body and a status outside 400-599 is never a
      failure, whatever its advisory bookkeeping; everything else is. */
  lemma FailedExactly(t: Transport)
    ensures Failed(t) <==> !(t.Response? && !RaisesForStatus(t.status) && t.body.Some?)
  {
  }
}
