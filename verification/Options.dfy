/** The optional value used throughout for the program's `null`. */
module Options {
  datatype Option<+T> = None | Some(value: T)
}
