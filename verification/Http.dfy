/** How the handler turns an outcome of Create into a response. */
module Http {
  import opened Domain

  /** A failed transfer has one code, whoever asks; the code of any other tells a new row from a replay. */
  function TransferStatusCode(t: Transfer, created: bool): int {
    if t.status == Failed then 422 else if created then 201 else 200
  }

  function StatusCode(o: Outcome): int {
    match o
    case Reply(t, created) => TransferStatusCode(t, created)
    case Refused(e) =>
      match e
      case ErrForbidden => 403
      case ErrInvalidTransfer => 400
      case ErrIdempotencyConflict => 409
      case ErrDestinationNotFound => 422
      case ErrCurrencyMismatch => 422
      case ErrBalanceOverflow => 422
      case _ => 500
  }
}
