/** Rust's `Option`, as used for optional task fields and list selections. */
module Options {

  datatype Option<+T> = None | Some(value: T)
}
