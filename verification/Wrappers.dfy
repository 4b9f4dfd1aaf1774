/** Shared by every part: a value that may be missing, and a frame around a large condition. */
module Wrappers {
  datatype Option<+T> = None | Some(value: T)

  /**
   * A condition handed on as one fact: as a goal it is looked up among the facts, where the bare condition would be taken
   * apart and proved clause by clause again.
   */
  predicate Whole(condition: bool) { condition == true }
}
