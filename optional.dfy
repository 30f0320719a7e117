/** A value that may be absent: a missing header, a record `findOne` did not find, a cleared reset token. */
module Optional {

  datatype Option<+T> = None | Some(value: T)
}
