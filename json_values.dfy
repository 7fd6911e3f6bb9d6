/**
 * JSON documents as the create flow handles them: parsed from a helper's
 * output or from a template file, changed member by member, and written
 * back with JSON.stringify into a helper's tmp file.
 */
module JsonValues {
  import opened Wrappers

  /**
   * A JSON value. Objects are maps from member name to value: JSON.parse keeps
   * the last of duplicated names, and member order is not modelled.
   */
  datatype Json =
    | JNull
    | JBool(b: bool)
    | JNum(n: real)
    | JStr(s: string)
    | JArr(items: seq<Json>)
    | JObj(fields: map<string, Json>)

  /** One step of a path into a document: a member of an object or a position in an array. */
  datatype Step = Member(name: string) | Index(i: nat)

  /** The value found by following `path` from `j`, or None when the path leads nowhere. */
  function Lookup(j: Json, path: seq<Step>): Option<Json>
    decreases |path|
  {
    if path == [] then Some(j)
    else match path[0]
      case Member(name) =>
        if j.JObj? && name in j.fields then Lookup(j.fields[name], path[1..]) else None
      case Index(i) =>
        if j.JArr? && i < |j.items| then Lookup(j.items[i], path[1..]) else None
  }

  predicate IsPrefix(p: seq<Step>, q: seq<Step>) {
    |p| <= |q| && q[..|p|] == p
  }

  /** Neither path lies on the way to the other: a write at one leaves the other alone. */
  predicate Apart(p: seq<Step>, q: seq<Step>) {
    !IsPrefix(p, q) && !IsPrefix(q, p)
  }

  /**
   * The members of an object after `o[name] = v`, seen through JSON.stringify:
   * writing `undefined` (None) leaves a member that stringify drops.
   */
  function Assign(m: map<string, Json>, name: string, v: Option<Json>): (r: map<string, Json>)
    ensures v.Some? ==> name in r && r[name] == v.value
    ensures v.None? ==> name !in r
    ensures forall k :: k != name ==> (k in r <==> k in m)
    ensures forall k :: k != name && k in m ==> r[k] == m[k]
  {
    if v.Some? then m[name := v.value] else m - {name}
  }

  /**
   * `target.name = v` in non-strict JavaScript, on a value taken from a parsed
   * document (None: `undefined`). Writing a member of null or undefined throws a
   * TypeError (the result is None); an object gets the member; a primitive
   * ignores the write. The names the scripts write (`title`, `description`,
   * `identifier`) are neither array indices nor `length`, so on an array they
   * make a member JSON.stringify does not write: both are left as they were.
   */
  function SetMember(target: Option<Json>, name: string, v: Option<Json>): (r: Option<Json>)
    ensures r.None? <==> (target.None? || target.value.JNull?)
    ensures r.Some? && target.value.JObj? ==> r.value == JObj(Assign(target.value.fields, name, v))
    ensures r.Some? && !target.value.JObj? ==> r == target
  {
    match target
    case None => None
    case Some(JNull) => None
    case Some(JObj(m)) => Some(JObj(Assign(m, name, v)))
    case Some(_) => target
  }

  /**
   * `target[0]` in JavaScript, on a non-null value taken from a parsed document:
   * the first element of an array, member "0" of an object, the first character
   * of a string, and `undefined` (None) otherwise.
   */
  function ElementZero(target: Json): (r: Option<Json>)
    requires !target.JNull?
    ensures r.Some? ==> target.JArr? || target.JObj? || target.JStr?
    ensures target.JArr? ==> (r.Some? <==> |target.items| > 0)
    ensures target.JObj? ==> (r.Some? <==> "0" in target.fields)
  {
    match target
    case JArr(items) => if |items| > 0 then Some(items[0]) else None
    case JObj(m) => if "0" in m then Some(m["0"]) else None
    case JStr(s) => if |s| > 0 then Some(JStr(s[..1])) else None
    case _ => None
  }

  /**
   * The enclosing value after the element that `ElementZero(target)` read was
   * changed in place to `e`. A one-character string read out of a string is a
   * fresh primitive, so the string stays as it is.
   */
  function WithElementZero(target: Json, e: Json): (r: Json)
    requires !target.JNull? && ElementZero(target).Some?
    ensures target.JArr? ==> r.JArr? && |r.items| == |target.items| && r.items[1..] == target.items[1..]
    ensures target.JObj? ==> r.JObj? && r.fields.Keys == target.fields.Keys
    ensures target.JObj? ==> forall k :: k in target.fields && k != "0" ==> r.fields[k] == target.fields[k]
    ensures !target.JStr? ==> ElementZero(r) == Some(e)
    ensures target.JStr? ==> r == target
  {
    match target
    case JArr(items) => JArr(items[0 := e])
    case JObj(m) => JObj(m["0" := e])
    case _ => target
  }
}
