/** JSON values as the request bodies carry them, and the optional wrapper
    used for "field absent from the request" (JavaScript `undefined`). */
module Json {

  /** An arbitrary JSON leaf or tree. The handlers never look inside these;
      they only store and overwrite them. Numbers are integers here. */
  datatype Value =
    | Null
    | Bool(b: bool)
    | Number(n: int)
    | Text(s: string)
    | List(items: seq<Value>)
    | Object(fields: map<string, Value>)

  /** `None` is a field the request body does not carry. */
  datatype Option<+T> = None | Some(value: T) {
    function GetOr(default: T): T {
      match this
      case Some(v) => v
      case None => default
    }
  }
}
