/** The optional value used wherever the pages test for a missing entry. */
module Optional {

  datatype Option<T> = None | Some(value: T)
}
