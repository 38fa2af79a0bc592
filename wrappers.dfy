/** The one failure-carrying datatype of the model. */
module Wrappers {

  /** `None` stands for the uninhabited type `never` that the type-level
      definitions produce when an operation has no result (a subtraction that
      would go below zero, the head of an empty list, a list index past the
      end), and for the `undefined` that indexing a character tuple past its
      end gives. */
  datatype Option<+T> = None | Some(value: T)
}
