/** A Java reference that may be null, as a value that may be absent. */
module Optional {

  datatype Option<+T> = None | Some(value: T)
}
