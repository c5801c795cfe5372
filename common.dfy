/** Values shared by the dashboard's scripts: optional values, results of
    operations that can throw, loosely typed JSON field values, and the
    render "type" argument that the table widget passes to column callbacks. */
module Common {

  datatype Option<T> = None | Some(value: T)

  /** The outcome of a step that in the browser either returns or throws. */
  datatype Result<T, E> = Ok(value: T) | Err(error: E)

  /** A scalar JSON field as the scripts see it. `Absent` is JavaScript's
      `undefined` (a key that is missing, or was assigned `undefined`). */
  datatype Json = Absent | Null | Num(n: real) | Text(s: string)

  /** JavaScript truthiness of a field value (NaN never occurs in parsed JSON). */
  predicate Truthy(v: Json)
  {
    match v
    case Num(n) => n != 0.0
    case Text(s) => s != ""
    case _ => false
  }

  /** The `type` argument of a column render callback; the scripts only ever
      test it against 'display'. */
  datatype RenderType = Display | OtherType

  function Min(a: real, b: real): real
  {
    if a <= b then a else b
  }
}
