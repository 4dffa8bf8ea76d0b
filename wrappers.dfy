/** An optional value, in place of the planner's nullable pointers. */
module Wrappers {

  datatype Option<+T> = None | Some(value: T)
}
