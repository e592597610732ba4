/** The conventional Some/None datatype. In the game engines `None` plays the
    part of JavaScript's `null` and Python's `None`: an emptied grid cell, or
    the out-of-range answer of a cell lookup. */
module Wrappers {

  datatype Option<+T> = None | Some(value: T)
}
