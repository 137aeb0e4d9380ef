/** The in-memory account the service debits and credits. */
module AccountEntity {
  import opened Domain

  class Account {
    const id: AccountId
    const user: UserId
    const currency: string
    var balance: int64

    constructor (id: AccountId, row: Row)
      ensures this.id == id && AsRow() == row
    {
      this.id, this.user, this.currency, this.balance := id, row.user, row.currency, row.balance;
    }

    function AsRow(): Row
      reads this
    {
      Row(user, currency, balance)
    }

    /** Takes the amount out, or leaves the balance alone and says why. */
    method Debit(amount: int64) returns (err: Option<Error>)
      modifies this`balance
      ensures err == (if amount <= 0 then Some(ErrInvalidAmount)
                      else if old(balance) < amount then Some(ErrInsufficientFunds)
                      else None)
      ensures balance == (if err.None? then old(balance) - amount else old(balance))
      ensures old(balance) >= 0 ==> balance >= 0
    {
      if amount <= 0 {
        return Some(ErrInvalidAmount);
      }
      if balance < amount {
        return Some(ErrInsufficientFunds);
      }
      balance := balance - amount;
      return None;
    }

    /** Puts the amount in, unless the 64-bit balance cannot hold it. */
    method Credit(amount: int64) returns (err: Option<Error>)
      modifies this`balance
      ensures err == (if amount <= 0 then Some(ErrInvalidAmount)
                      else if old(balance) + amount > MAX_INT64 then Some(ErrBalanceOverflow)
                      else None)
      ensures balance == (if err.None? then old(balance) + amount else old(balance))
    {
      if amount <= 0 {
        return Some(ErrInvalidAmount);
      }
      if balance > MAX_INT64 - amount {
        return Some(ErrBalanceOverflow);
      }
      balance := balance + amount;
      return None;
    }
  }
}
