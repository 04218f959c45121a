/** JSON-like values and the result types shared by every component. */
module Values {

  datatype Option<+T> = None | Some(value: T)

  datatype Result<+T, +E> = Ok(value: T) | Err(error: E)

  /** A decoded JSON value; objects are maps, so key order is not part of the model. */
  datatype Json =
    | Null
    | Bool(b: bool)
    | Num(n: int)
    | Str(s: string)
    | List(items: seq<Json>)
    | Object(fields: map<string, Json>)

  type Dict = map<string, Json>

  /** The text stored under a key, or "" when the key is missing or holds something else. */
  function TextAt(d: Dict, key: string): string {
    if key in d && d[key].Str? then d[key].s else ""
  }
}
