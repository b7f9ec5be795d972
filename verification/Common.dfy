/** Types shared by the models. */
module Common {

  datatype Option<+T> = None | Some(value: T)

  newtype Byte = x: int | 0 <= x < 256

  type Bytes = seq<Byte>

  /** How a piece of C code ends under a finite schedule of the environment: `StillWaiting` means that the
      schedule ran out while the code was in one of its wait loops. */
  datatype Outcome = Success | Failure | StillWaiting

  /** The contract of a non-blocking UCX call: it completes at once without a callback, fails without one,
      or returns a request whose callback runs exactly once, inside the call or in a later progress call. */
  datatype Posted = Immediate | Failed | Pending(inCall: bool)
}
