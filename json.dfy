/** The usual optional value, and a mapping that fails as soon as one item fails. */
module Wrappers {

  datatype Option<+T> = None | Some(value: T)

  /** All of `f(xs[0]), f(xs[1]), ...` when every one of them succeeds, and `None`
      as soon as one of them fails: a loop that stops at the first exception. */
  function Traverse<A, B>(xs: seq<A>, f: A -> Option<B>): (r: Option<seq<B>>)
    ensures r.Some? <==> forall i :: 0 <= i < |xs| ==> f(xs[i]).Some?
    ensures r.Some? ==> |r.value| == |xs| && forall i :: 0 <= i < |xs| ==> f(xs[i]) == Some(r.value[i])
  {
    if xs == [] then Some([])
    else
      match f(xs[0])
      case None => None
      case Some(y) =>
        match Traverse(xs[1..], f)
        case None => None
        case Some(ys) => Some([y] + ys)
  }

  /** Regrouping a concatenation, for proofs that rebuild a sequence piece by piece. */
  lemma Assoc<T>(x: seq<T>, y: seq<T>, z: seq<T>)
    ensures x + (y + z) == (x + y) + z
  {
  }
}

/** A parsed JSON document, as Python's json module hands it to the report code,
    and the few dictionary and truthiness operations the report code applies to it. */
module JsonValue {
  import opened Wrappers

  /** Objects are dictionaries (a later duplicate key has already replaced an earlier one
      when parsing). Numbers are reals: the summariser itself only asks whether a number
      is zero, but numbers copied into the records lose Python's distinction between
      `1` and `1.0` and its non-finite values. */
  datatype Json =
    | JNull
    | JBool(b: bool)
    | JNumber(n: real)
    | JString(s: string)
    | JArray(items: seq<Json>)
    | JObject(fields: map<string, Json>)

  /** Python's truthiness of a parsed JSON value: everything is true except `None`,
      `False`, zero and the empty string, list and dictionary. */
  predicate Truthy(v: Json)
    ensures !Truthy(v) <==>
      v == JNull || v == JBool(false) || v == JNumber(0.0) || v == JString("") || v == JArray([]) || v == JObject(map[])
  {
    match v
    case JNull => false
    case JBool(b) => b
    case JNumber(n) => n != 0.0
    case JString(s) => s != ""
    case JArray(items) => items != []
    case JObject(fields) => fields != map[]
  }

  /** `fields.get(key, default)`. */
  function Lookup(fields: map<string, Json>, key: string, default: Json): (r: Json)
    ensures key in fields ==> r == fields[key]
    ensures key !in fields ==> r == default
  {
    if key in fields then fields[key] else default
  }

  /** `v or []`: a truthy value itself, and the empty list for every falsy one. */
  function OrEmpty(v: Json): (r: Json)
    ensures Truthy(v) ==> r == v
    ensures !Truthy(v) ==> r == JArray([])
  {
    if Truthy(v) then v else JArray([])
  }

  /** The dictionaries that `for x in v: x.get(...)` visits, or `None` when that loop
      raises. A list is iterated element by element, and every element must be a
      dictionary to have `.get`; an empty string and an empty dictionary iterate over
      nothing; a non-empty string or dictionary yields strings, which have no `.get`;
      null, booleans and numbers are not iterable at all. */
  function ObjectItems(v: Json): (r: Option<seq<map<string, Json>>>)
    ensures r.Some? ==> v.JArray? || v == JString("") || v == JObject(map[])
    ensures v.JArray? ==>
      (r.Some? <==> forall i :: 0 <= i < |v.items| ==> v.items[i].JObject?)
    ensures v.JArray? && r.Some? ==>
      |r.value| == |v.items| && forall i :: 0 <= i < |v.items| ==> v.items[i] == JObject(r.value[i])
    ensures !v.JArray? && r.Some? ==> r.value == []
    ensures v == JString("") || v == JObject(map[]) ==> r == Some([])
  {
    match v
    case JArray(items) =>
      if forall i :: 0 <= i < |items| ==> items[i].JObject? then
        Some(seq(|items|, i requires 0 <= i < |items| => items[i].fields))
      else None
    case JString(s) => if s == "" then Some([]) else None
    case JObject(fields) => if fields == map[] then Some([]) else None
    case _ => None
  }

  /** `fields.get(key, []) or []`, iterated as a list of dictionaries. */
  function ListOrEmpty(fields: map<string, Json>, key: string): (r: Option<seq<map<string, Json>>>)
    ensures key !in fields || !Truthy(fields[key]) ==> r == Some([])
    ensures key in fields && Truthy(fields[key]) ==> r == ObjectItems(fields[key])
    ensures r.None? <==>
      key in fields && Truthy(fields[key]) &&
      (!fields[key].JArray? || exists i :: 0 <= i < |fields[key].items| && !fields[key].items[i].JObject?)
  {
    ObjectItems(OrEmpty(Lookup(fields, key, JArray([]))))
  }
}
