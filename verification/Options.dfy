/** The conventional optional value, used where the source has a null pointer or an absent result. */
module Options {
  datatype Option<+T> = None | Some(value: T)
}
