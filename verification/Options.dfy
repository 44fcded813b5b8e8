/** The optional value shared by every module: a JavaScript null or a present value. */
module Options {
  datatype Option<+T> = None | Some(value: T)
}
