/** An optional value: used for a missing content type, a failed integer
    parse and a run aborted by an uncaught exception. */
module Wrappers {

  datatype Option<+T> = None | Some(value: T)
}
