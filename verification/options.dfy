/** The optional value used wherever the player reads a field that may be absent. */
module Options {

  /** `None` stands for a JavaScript `undefined`; `Some(v)` for a present value. */
  datatype Option<+T> = None | Some(value: T)
}
