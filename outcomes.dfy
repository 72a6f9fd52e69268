/** Failure values shared by the reply decoders.
    A decoder of the power supply's replies either completes or stops at the
    first Python exception the original code would raise. */
module Outcomes {

  datatype Option<+T> = None | Some(value: T)

  /** The exceptions the decoders can raise, with the position that raised them:
      an index past the end of a string or list, or `int` applied to a
      character that is not a decimal digit. */
  datatype Fault =
    | IndexError(index: nat)
    | ValueError(index: nat)

  /** What a decoder call ends with: it ran to the end, or it raised. */
  datatype Outcome = Done | Raised(fault: Fault)
}
