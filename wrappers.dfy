/** The optional value used where the C code hands back "nothing" (a NULL
    out-pointer, or no wall). */
module Wrappers {
  datatype Option<+T> = None | Some(value: T)
}
