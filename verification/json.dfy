/** JSON values as they arrive in a request body or are stored in a job's payload. */
module Json {

  /** A parsed JSON value; numbers are modelled as integers. */
  datatype Value =
    | Null
    | Bool(b: bool)
    | Num(n: int)
    | Str(s: string)
    | Arr(items: seq<Value>)
    | Obj(fields: seq<(string, Value)>)

  /** JavaScript truthiness of a JSON value (`NaN` does not occur in JSON). */
  predicate IsFalsy(v: Value)
  {
    v == Null || v == Bool(false) || v == Num(0) || v == Str("")
  }
}
