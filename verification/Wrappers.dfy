/** Types that every part of the model shares. */
module Wrappers {

  datatype Option<+T> = None | Some(value: T)

  /** What a caller sees of an API call, and whether the call took effect. */
  datatype Outcome = Done | NotApplied | AppliedButFailed

  predicate Applied(o: Outcome) {
    !o.NotApplied?
  }
}
