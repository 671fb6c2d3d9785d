/** The optional value used across the model: a missing dictionary key, an absent
    response field, an empty file list. */
module Options {
  datatype Option<+T> = None | Some(value: T)
}
