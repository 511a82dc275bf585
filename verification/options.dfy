/** The optional value of the source: `null`/`undefined` versus a present value. */
module Options {
  datatype Option<+T> = None | Some(value: T)
}
