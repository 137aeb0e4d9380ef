/** The records of the transfer service: requests, stored transfers, account rows, ledger entries,
    the errors a call can end with, and the answer it gives. */
module Domain {

  datatype Option<+T> = None | Some(value: T)

  const MAX_INT64: int := 0x7FFF_FFFF_FFFF_FFFF

  /** A 64-bit amount. Every value stored at this type carries a proof that no step wrapped around. */
  type int64 = x: int | -0x8000_0000_0000_0000 <= x <= 0x7FFF_FFFF_FFFF_FFFF

  type AccountId = string
  type UserId = string

  /** A UUID as the number its 16 bytes spell; 0 is the nil UUID. */
  type Uuid = nat

  datatype CreateTransfer = CreateTransfer(
    from: AccountId, to: AccountId, amount: int64, currency: string, description: string)

  datatype Status = Pending | Processing | Completed | Failed | Cancelled

  datatype FailureReason = NoReason | InsufficientFunds

  datatype Transfer = Transfer(
    id: Uuid, key: Uuid, from: AccountId, to: AccountId, amount: int64, currency: string,
    description: string, status: Status, reason: FailureReason)

  /** A row of the transfers table without its (user, key), which is the table's key here. */
  datatype StoredTransfer = StoredTransfer(transfer: Transfer, original: CreateTransfer)

  datatype Key = Key(user: UserId, uuid: Uuid)

  /** A row of the accounts table without its id. */
  datatype Row = Row(user: UserId, currency: string, balance: int64)

  datatype LedgerEntry = LedgerEntry(
    transferId: Uuid, accountId: AccountId, amount: int64, balanceAfter: int64)

  datatype Error =
    | ErrForbidden
    | ErrInvalidTransfer
    | ErrDestinationNotFound
    | ErrCurrencyMismatch
    | ErrInvalidAmount
    | ErrInsufficientFunds
    | ErrBalanceOverflow
    | ErrIdempotencyConflict
    | ErrNotFound
    | ErrRowCount     // SaveBalances updated fewer rows than it was given
    | ErrConstraint   // a CHECK or FOREIGN KEY of the schema refused a row
    | ErrUnstorable   // text that a PostgreSQL column cannot hold
    | ErrUnavailable  // infrastructure: lost connection, timeout, crash, unknown commit

  /** What Create answers. */
  datatype Outcome = Reply(transfer: Transfer, created: bool) | Refused(error: Error)

  /** One invocation of Create. `key` is what scanning the Idempotency-Key text as a UUID gives;
      None is text that does not scan. */
  datatype Call = Call(user: UserId, key: Option<Uuid>, request: CreateTransfer)

  function Find(rows: map<AccountId, Row>, id: AccountId): Option<Row> {
    if id in rows then Some(rows[id]) else None
  }
}
