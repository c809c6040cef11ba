/** Decoded JSON response bodies, and the handful of Python operations the
    client applies to them: subscripting, `.get`, `.pop`, iteration,
    truthiness, hashing, and jmespath's dotted field path. */
module Json {
  import opened Wrappers

  /** A decoded JSON value. Numbers are integers: the responses read here
      carry no fractional numbers. */
  datatype Json =
    | JNull
    | JBool(b: bool)
    | JNum(n: int)
    | JStr(s: string)
    | JArr(elems: seq<Json>)
    | JObj(members: map<string, Json>)

  /** `j[key]`: a dict without the key raises KeyError, anything that is not
      a dict raises TypeError. */
  function Index(j: Json, key: string): (r: Result<Json>)
    ensures r.Success? <==> j.JObj? && key in j.members
    ensures r.Success? ==> r.value == j.members[key]
    ensures j.JObj? && key !in j.members ==> r == Failure(KeyError(key))
  {
    match j
    case JObj(m) => if key in m then Success(m[key]) else Failure(KeyError(key))
    case _ => Failure(TypeError)
  }

  /** `j.get(key)`: `None` (here JNull) for a missing key; only dicts have `.get`. */
  function Get(j: Json, key: string): (r: Result<Json>)
    ensures r.Success? <==> j.JObj?
    ensures j.JObj? ==> r.value == if key in j.members then j.members[key] else JNull
    ensures !j.JObj? ==> r == Failure(AttributeError("get"))
  {
    match j
    case JObj(m) => Success(if key in m then m[key] else JNull)
    case _ => Failure(AttributeError("get"))
  }

  /** `j.pop(key, default)`: the removed value (or the default) and the dict
      without the key. A list's `pop` rejects these arguments; other values
      have no `pop`. */
  function Pop(j: Json, key: string, default: Json): (r: Result<(Json, Json)>)
    ensures r.Success? <==> j.JObj?
    ensures r.Success? ==> r.value.1 == JObj(j.members - {key})
    ensures r.Success? ==> r.value.0 == if key in j.members then j.members[key] else default
  {
    match j
    case JObj(m) => Success((if key in m then m[key] else default, JObj(m - {key})))
    case JArr(_) => Failure(TypeError)
    case _ => Failure(AttributeError("pop"))
  }

  /** jmespath's `a.b.c`: follows the keys through nested objects and yields
      null as soon as a key is missing or a value on the way is not an object. */
  function Search(path: seq<string>, j: Json): (r: Json)
    ensures path != [] && r != JNull ==> j.JObj? && path[0] in j.members
    decreases |path|
  {
    if path == [] then j
    else match j
      case JObj(m) => if path[0] in m then Search(path[1..], m[path[0]]) else JNull
      case _ => JNull
  }

  /** Python truthiness of a decoded JSON value. */
  predicate Truthy(j: Json) {
    match j
    case JNull => false
    case JBool(b) => b
    case JNum(n) => n != 0
    case JStr(s) => s != ""
    case JArr(e) => e != []
    case JObj(m) => m != map[]
  }

  /** `for x in j`, in a loop whose body raises `onKey` when handed a
      string: a list yields its elements and a string its characters, and
      an empty dict yields nothing. A non-empty dict yields its keys, and
      the body raises `onKey` on the first of them. Other values are not
      iterable. */
  function Iterate(j: Json, onKey: Error): (r: Result<seq<Json>>)
    ensures j.JArr? ==> r == Success(j.elems)
    ensures r.Success? ==> j.JArr? || j.JStr? || j == JObj(map[])
    ensures j.JObj? && j.members != map[] ==> r == Failure(onKey)
    ensures !j.JArr? && !j.JStr? && !j.JObj? ==> r == Failure(TypeError)
  {
    match j
    case JArr(e) => Success(e)
    case JStr(s) => Success(seq(|s|, i requires 0 <= i < |s| => JStr([s[i]])))
    case JObj(m) => if m == map[] then Success([]) else Failure(onKey)
    case _ => Failure(TypeError)
  }

  /** Lists and dicts cannot be dict keys. */
  predicate Hashable(j: Json) {
    !j.JArr? && !j.JObj?
  }
}
