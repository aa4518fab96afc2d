/** The JSON values a node's `data` holds. */
module Json {
  import opened Options

  /** A JSON value. Object members form a map: two objects that differ only in key order are equal. */
  datatype Json =
    | Null
    | Bool(b: bool)
    | Num(n: real)
    | Str(s: string)
    | Arr(items: seq<Json>)
    | Obj(fields: map<string, Json>)

  /** What a JavaScript condition makes of a value. */
  predicate Truthy(j: Json) {
    match j
    case Null => false
    case Bool(b) => b
    case Num(n) => n != 0.0
    case Str(s) => s != ""
    case Arr(_) => true
    case Obj(_) => true
  }

  type Data = map<string, Json>

  /** `data[key]`, None when the member is absent. */
  function Get(data: Data, key: string): Option<Json> {
    if key in data then Some(data[key]) else None
  }

  predicate Has(data: Data, key: string) {
    key in data && Truthy(data[key])
  }

  /** `data[key]?.[member]`. */
  function Member(data: Data, key: string, member: string): Option<Json> {
    if key in data && data[key].Obj? && member in data[key].fields then Some(data[key].fields[member]) else None
  }

  function MemberText(data: Data, key: string, member: string): Option<string> {
    match Member(data, key, member)
    case Some(Str(s)) => Some(s)
    case _ => None
  }
}
