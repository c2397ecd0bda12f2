/** A value that may be absent: JavaScript's `null`/`undefined` at the model's boundary. */
module Options {
  datatype Option<T> = None | Some(value: T)
}
