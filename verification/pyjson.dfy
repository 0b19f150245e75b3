/** Parsed JSON bodies and the few Python operations the fetchers apply to them:
    truthiness (`not data`), membership (`'k' in data`), subscription
    (`data['k']`), `dict.get` and iteration (`for x in data`). An operation that
    raises in Python yields a `Failure` carrying the exception; the fetchers do
    not catch these, so they reach the caller. */
module PyJson {
  import opened Wrappers

  /** A JSON value as `json.loads` builds it. An object keeps its members in
      document order; numbers are integers. */
  datatype Json =
    | JNull
    | JBool(b: bool)
    | JNum(n: int)
    | JStr(s: string)
    | JArr(items: seq<Json>)
    | JObj(members: seq<(string, Json)>)

  /** The Python exceptions the fetchers can raise on unexpected bodies. */
  datatype PyError =
    | KeyError(key: string)   // `d['k']` on a dict without key `k`
    | TypeError               // subscripting, iterating or `in` on an unsuitable value
    | AttributeError          // `.get` on a value that is not a dict

  /** Python truthiness: `None`, `False`, `0`, `""`, `[]` and `{}` are false. */
  predicate Truthy(j: Json) {
    match j
    case JNull => false
    case JBool(b) => b
    case JNum(n) => n != 0
    case JStr(s) => s != ""
    case JArr(xs) => xs != []
    case JObj(ms) => ms != []
  }

  predicate HasKey(ms: seq<(string, Json)>, key: string) {
    exists i :: 0 <= i < |ms| && ms[i].0 == key
  }

  /** Value of `key` in a decoded object; as in `json.loads`, the last of
      duplicated members wins. */
  function Lookup(ms: seq<(string, Json)>, key: string): (r: Option<Json>)
    ensures r.Some? <==> HasKey(ms, key)
    ensures r.Some? ==> exists i :: 0 <= i < |ms| && ms[i] == (key, r.value)
  {
    if |ms| == 0 then None
    else if ms[|ms| - 1].0 == key then Some(ms[|ms| - 1].1)
    else
      var r := Lookup(ms[..|ms| - 1], key);
      assert forall i :: 0 <= i < |ms| - 1 ==> ms[..|ms| - 1][i] == ms[i];
      r
  }

  predicate IsPrefix(p: string, s: string) {
    |p| <= |s| && s[..|p|] == p
  }

  /** Python's substring test `p in s`. */
  predicate IsSubstring(p: string, s: string)
    decreases |s|
  {
    IsPrefix(p, s) || (|s| > 0 && IsSubstring(p, s[1..]))
  }

  /** `key in j` for a string key. */
  function Contains(key: string, j: Json): Result<bool, PyError> {
    match j
    case JObj(ms) => Success(HasKey(ms, key))
    case JArr(xs) => Success(JStr(key) in xs)
    case JStr(s) => Success(IsSubstring(key, s))
    case _ => Failure(TypeError)
  }

  /** `j[key]` for a string key: only a dict can be subscripted by a string. */
  function Index(j: Json, key: string): (r: Result<Json, PyError>)
    ensures r.Success? <==> j.JObj? && HasKey(j.members, key)
    ensures j.JObj? && !HasKey(j.members, key) ==> r == Failure(KeyError(key))
    ensures !j.JObj? ==> r == Failure(TypeError)
  {
    match j
    case JObj(ms) =>
      if HasKey(ms, key) then Success(Lookup(ms, key).value) else Failure(KeyError(key))
    case _ => Failure(TypeError)
  }

  /** `j.get(key)`: `None` (here `JNull`) for a missing key; only dicts have `.get`. */
  function Get(j: Json, key: string): Result<Json, PyError> {
    match j
    case JObj(ms) => Success(Lookup(ms, key).GetOr(JNull))
    case _ => Failure(AttributeError)
  }

  /** The elements `for x in j` visits: list items, the keys of a dict, the
      one-character strings of a string. Numbers, booleans and `None` are not
      iterable. A dict here is visited once per member, so duplicated keys are
      visited twice; every use below depends only on whether the dict is empty
      and on its keys being strings. */
  function Iterate(j: Json): (r: Result<seq<Json>, PyError>)
    ensures r.Success? <==> j.JArr? || j.JObj? || j.JStr?
    ensures j.JArr? ==> r == Success(j.items)
    ensures r.Success? && !j.JArr? ==> forall i :: 0 <= i < |r.value| ==> r.value[i].JStr?
    ensures r.Success? ==> (|r.value| == 0 <==> !Truthy(j))
  {
    match j
    case JArr(xs) => Success(xs)
    case JObj(ms) => Success(seq(|ms|, i requires 0 <= i < |ms| => JStr(ms[i].0)))
    case JStr(s) => Success(seq(|s|, i requires 0 <= i < |s| => JStr([s[i]])))
    case _ => Failure(TypeError)
  }
}
