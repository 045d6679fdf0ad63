/** The optional value, for the source's nullable pointers and std::optional. */
module Options {
  datatype Option<+T> = None | Some(value: T)
}
