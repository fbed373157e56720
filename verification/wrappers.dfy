/** The optional value used wherever the source has `undefined`: a block without
    a colour, and a project name that is not in the registry. */
module Wrappers {
  datatype Option<+T> = None | Some(value: T)
}
