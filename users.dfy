/** User identifiers of the spectrum-sharing simulation.
    The source names users by strings such as "PU3": a class prefix followed by the
    value of that class's counter at the moment the id was minted. Here the string is
    kept as the tagged pair it encodes. */
module Users {

  /** Python's `None` / a present value. */
  datatype Option<+T> = None | Some(value: T)

  /** Primary users are privileged; secondary users are opportunistic. */
  datatype UserClass = PU | SU

  /** The class whose counter an operation on `c` leaves alone. */
  function Other(c: UserClass): UserClass
  {
    if c == PU then SU else PU
  }

  /** `PU3` is `UserId(PU, 3)`; sequence numbers start at 1 for each class. */
  datatype UserId = UserId(cls: UserClass, seqNo: nat)
}
