/** JSON values as the rewriters see them: the last of several equal members wins, and
    decoding null into an object, an array or a string gives the empty one. */
module Json {
  import opened Prelude

  datatype Json =
    | Null
    | Bool(b: bool)
    | Num(text: string)
    | Str(s: string)
    | Arr(items: seq<Json>)
    | Obj(members: Members)

  type Members = map<string, Json>

  function AsObject(j: Json): Option<Members> {
    match j
    case Obj(m) => Some(m)
    case Null => Some(map[])
    case _ => None
  }

  function AsArray(j: Json): Option<seq<Json>> {
    match j
    case Arr(items) => Some(items)
    case Null => Some([])
    case _ => None
  }

  function AsString(j: Json): Option<string> {
    match j
    case Str(s) => Some(s)
    case Null => Some("")
    case _ => None
  }
}
