/**
  Decoded JSON values, as json.loads (Python) and JSON.parse (JavaScript)
  produce them. Numbers are integers only; an object keeps its members in
  document order.
 */
module JsonValues {

  datatype Json =
    | Null
    | Bool(b: bool)
    | Num(n: int)
    | Str(s: string)
    | Arr(items: seq<Json>)
    | Obj(members: seq<(string, Json)>)

  /** A JavaScript value: `undefined`, or a value JSON can carry. */
  datatype JsValue = Undefined | Defined(value: Json)
}
