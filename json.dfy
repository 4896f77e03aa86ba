/** The value `JSON.parse` hands back for the model's reply. Objects are
    ordered member lists, in the order JavaScript enumerates their
    properties, because the resolution of a reply's shape depends on it. */
module Json {
  import opened Wrappers

  datatype Json =
    | JNull
    | JBool(b: bool)
    | JNum(n: real)
    | JStr(s: string)
    | JArr(items: seq<Json>)
    | JObj(members: seq<Member>)

  datatype Member = Member(key: string, value: Json)

  /** ECMAScript ToBoolean: `null`, `false`, `0` and `""` are falsy; arrays
      and objects, even empty ones, are truthy. */
  predicate ToBoolean(v: Json) {
    match v
    case JNull => false
    case JBool(b) => b
    case JNum(n) => n != 0.0
    case JStr(s) => s != ""
    case JArr(_) => true
    case JObj(_) => true
  }

  /** Position of the member named `key` (a parsed object has at most one). */
  function KeyIndex(members: seq<Member>, key: string): (r: Option<nat>)
    ensures r.Some? ==> (r.value < |members| && members[r.value].key == key
      && forall j :: 0 <= j < r.value ==> members[j].key != key)
    ensures r.None? ==> forall j :: 0 <= j < |members| ==> members[j].key != key
  {
    if members == [] then None
    else if members[0].key == key then Some(0)
    else match KeyIndex(members[1..], key)
      case Some(i) => Some(i + 1)
      case None => None
  }

  /** `v[key]` on a non-null value, for the keys the core reads (`events`,
      `activity`, `date`, ...), none of which is a built-in property of a
      string, number, boolean or array: only objects can hold them. */
  function Property(v: Json, key: string): (r: Option<Json>)
    requires !v.JNull?
    ensures r.Some? <==> v.JObj? && KeyIndex(v.members, key).Some?
  {
    if v.JObj? then
      match KeyIndex(v.members, key)
      case Some(i) => Some(v.members[i].value)
      case None => None
    else None
  }

  /** `Object.values(v)` on a non-null value that is not an array: an
      object's member values in order, a string's characters, and nothing
      for numbers and booleans. */
  function Values(v: Json): (r: seq<Json>)
    requires !v.JNull? && !v.JArr?
    ensures v.JObj? ==> |r| == |v.members| && forall i :: 0 <= i < |r| ==> r[i] == v.members[i].value
    ensures forall i :: 0 <= i < |r| ==> v.JObj? || r[i].JStr?
  {
    match v
    case JObj(ms) => MemberValues(ms)
    case JStr(s) => Characters(s)
    case _ => []
  }

  function MemberValues(ms: seq<Member>): (r: seq<Json>)
    ensures |r| == |ms| && forall i :: 0 <= i < |r| ==> r[i] == ms[i].value
  {
    if ms == [] then [] else [ms[0].value] + MemberValues(ms[1..])
  }

  /** A string's characters, each as a one-character string. */
  function Characters(s: string): (r: seq<Json>)
    ensures |r| == |s| && forall i :: 0 <= i < |r| ==> r[i] == JStr([s[i]])
  {
    if s == [] then [] else [JStr([s[0]])] + Characters(s[1..])
  }

  /** Position of the first array among `vs` (`values.find(v => Array.isArray(v))`). */
  function FirstArrayIndex(vs: seq<Json>): (r: Option<nat>)
    ensures r.Some? ==> (r.value < |vs| && vs[r.value].JArr?
      && forall j :: 0 <= j < r.value ==> !vs[j].JArr?)
    ensures r.None? ==> forall j :: 0 <= j < |vs| ==> !vs[j].JArr?
  {
    if vs == [] then None
    else if vs[0].JArr? then Some(0)
    else match FirstArrayIndex(vs[1..])
      case Some(i) => Some(i + 1)
      case None => None
  }
}
