/** The small types every module uses. */
module Wrappers {

  datatype Option<+T> = None | Some(value: T)

  /** What becomes of one remote call: it works, or it fails before or after taking effect. */
  datatype Fate = Works | FailsBefore | FailsAfter {
    predicate Lands() { !FailsBefore? }
  }
}
