/** An optional value, used for every nilable pointer, missing row and error return of the model. */
module Options {
  datatype Option<+T> = None | Some(value: T)
}
