/** Small helpers shared by all models. */
module Common {
  datatype Option<+T> = None | Some(value: T)
}
