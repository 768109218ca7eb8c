/** A value that may be absent: null executors, released handles, outcomes not yet set. */
module Options {
  datatype Option<+T> = None | Some(value: T)
}
