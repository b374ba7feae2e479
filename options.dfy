/** The optional value used wherever the source has `undefined`, a missing row or a thrown call. */
module Options {
  datatype Option<+T> = None | Some(value: T)
}
