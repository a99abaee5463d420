/** The two failure shapes of the system: a value that may be absent
    (Python's `None`), and a call that may raise instead of returning. */
module Outcomes {

  datatype Option<+T> = None | Some(value: T)

  /** The result of calling a collaborator that may raise an exception. */
  datatype Outcome<+T> = Returned(value: T) | Raised
}
