/** Small datatypes shared by the models. */
module Common {

  /** An optional value: what the program writes as a value or `None`. */
  datatype Option<+T> = None | Some(value: T)
}
