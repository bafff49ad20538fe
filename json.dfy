/** JSON values, the data `JSON.stringify` turns into text. Rendering a value as
    text (indentation, escapes) is left to a serialiser the callers pass in; what
    is modelled is which value gets rendered. */
module Json {
  import opened Wrappers

  datatype Value =
    | Null
    | Bool(b: bool)
    | Number(n: int)
    | Str(s: string)
    | Arr(items: seq<Value>)
    | Obj(fields: seq<(string, Value)>)

  /** One member of an object literal whose value may be `undefined`:
      `JSON.stringify` leaves such a member out. */
  function Member(name: string, v: Option<Value>): (r: seq<(string, Value)>)
    ensures v.None? ==> r == []
    ensures v.Some? ==> r == [(name, v.value)]
  {
    match v
    case None => []
    case Some(x) => [(name, x)]
  }

  /** The value a member name is bound to, the first binding winning. */
  function Lookup(fields: seq<(string, Value)>, name: string): (r: Option<Value>)
    ensures r.Some? <==> exists i :: 0 <= i < |fields| && fields[i].0 == name
  {
    if |fields| == 0 then None
    else if fields[0].0 == name then Some(fields[0].1)
    else Lookup(fields[1..], name)
  }

  /** A text member that may be absent. */
  function OptStr(v: Option<string>): Option<Value> {
    match v
    case None => None
    case Some(s) => Some(Str(s))
  }

  /** A numeric member that may be absent. */
  function OptNum(v: Option<int>): Option<Value> {
    match v
    case None => None
    case Some(n) => Some(Number(n))
  }
}
