/** Shared result types for the booking model.

    Java reports failures by throwing; here every operation returns a value
    that says whether it succeeded. A `null` argument is `None`.
 */
module Common {

  /** A possibly-absent value; `None` stands for a Java `null`. */
  datatype Option<+T> = None | Some(value: T)

  /** The kinds of failure the booking core raises.

      `IllegalArgument` is `java.lang.IllegalArgumentException`; every other
      kind is a `HotelException`, told apart here by the situation that
      raises it rather than by its message text. */
  datatype ErrorKind =
    | IllegalArgument
    | InvalidStateTransition
    | NoAvailability
    | ReservationNotFound
    | HotelNotFound
    | RoomNotFound

  /** Outcome of a constructor or of an operation that never half-changes
      anything: a value, or an error with no state. */
  datatype Result<+T> = Ok(value: T) | Err(error: ErrorKind)

  /** Outcome of an operation on a mutable aggregate. Both arms carry the
      aggregate's state after the call, so a failure that happens after
      part of the work was done shows exactly what was left behind. */
  datatype Outcome<+S, +V> =
    | Done(state: S, value: V)
    | Failed(error: ErrorKind, state: S)
}
