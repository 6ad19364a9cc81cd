/** The optional value used for grid cells that may hold no tile. */
module Wrappers {

  /** A cell's content: `None` is the source's `null`. */
  datatype Option<+T> = None | Some(value: T)
}
