/**
 An optional value: what the source's `Option` is.
 */
module Options {

  datatype Option<+T> = None | Some(value: T)
}
