/** The optional value used wherever the source uses a sentinel
    (`InvalidNodeIndex`, `InvalidCounterIndex`, a null pointer, a `-1` slot). */
module Wrappers {
  datatype Option<+T> = None | Some(value: T)
}
