/** The optional value the script expresses with Python's `None`. */
module Options {

  datatype Option<+T> = None | Some(value: T)
}
