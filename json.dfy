/** Decoded JSON values as Python's json module hands them to the program,
    and the few Python operations the program applies to them. Encoding and
    decoding text are not modelled here: callers take them as parameters. */
module Json {
  import opened Common

  datatype Json =
    | JNull
    | JBool(b: bool)
    | JNum(n: real)
    | JStr(s: string)
    | JArr(items: seq<Json>)
    | JObj(fields: map<string, Json>)

  /** Python truthiness: `if value:`. */
  predicate Truthy(j: Json)
  {
    match j
    case JNull => false
    case JBool(b) => b
    case JNum(n) => n != 0.0
    case JStr(s) => s != ""
    case JArr(xs) => xs != []
    case JObj(m) => m != map[]
  }

  /** `len(value)`: a list, a dict or a string has a length; anything else
      raises TypeError (None). */
  function Len(j: Json): (r: Option<nat>)
    ensures r.Some? <==> j.JArr? || j.JObj? || j.JStr?
    ensures r.Some? ==> (r.value == 0 <==> !Truthy(j))
  {
    match j
    case JArr(xs) => Some(|xs|)
    case JObj(m) => Some(|m|)
    case JStr(s) => Some(|s|)
    case _ => None
  }

  /** `d.get(key, default)` on a dict. */
  function GetOr(m: map<string, Json>, key: string, default: Json): (r: Json)
    ensures key in m ==> r == m[key]
    ensures key !in m ==> r == default
  {
    if key in m then m[key] else default
  }

  /** `format(value, '.2f')` succeeds only for an int, a float or a bool. */
  predicate FormatsAsFloat(j: Json)
  {
    j.JNum? || j.JBool?
  }

  /** The numeric value Python uses for an int, a float or a bool. */
  function NumValue(j: Json): real
    requires FormatsAsFloat(j)
  {
    if j.JNum? then j.n else if j.b then 1.0 else 0.0
  }

  /** `{"type": event_type, **data}`: later keys win, so a "type" key in data
      replaces event_type. */
  function Tagged(eventType: string, data: map<string, Json>): (r: map<string, Json>)
    ensures r.Keys == data.Keys + {"type"}
    ensures "type" !in data ==> r["type"] == JStr(eventType)
    ensures forall k :: k in data ==> r[k] == data[k]
  {
    map["type" := JStr(eventType)] + data
  }

  /** `None` for an absent Python value, otherwise the string. */
  function OptStr(s: Option<string>): (r: Json)
    ensures s.None? <==> r == JNull
  {
    if s.Some? then JStr(s.value) else JNull
  }

  /** `None` for an absent Python value, otherwise the number. */
  function OptNum(x: Option<real>): (r: Json)
    ensures x.None? <==> r == JNull
  {
    if x.Some? then JNum(x.value) else JNull
  }
}
