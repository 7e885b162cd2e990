/** The two guarded withdrawals of the farm: spending money from the treasury and
    taking one unit of fertilizer from the shared stock. They are the primitives every
    operation that spends something goes through, so a failed withdrawal never
    changes anything. */
module Ledger {

  /** Spends `amount` from `balance` when the balance covers it.
      Returns the new balance and whether the debit happened. */
  function Debit(balance: real, amount: real): (r: (real, bool))
    ensures r.1 <==> balance >= amount
    ensures r.1 ==> r.0 + amount == balance
    ensures !r.1 ==> r.0 == balance
    ensures r.1 ==> r.0 >= 0.0
  {
    if balance >= amount then (balance - amount, true) else (balance, false)
  }

  /** Adds `amount` to the balance (no guard: income is never refused). */
  function Credit(balance: real, amount: real): (r: real)
    ensures amount >= 0.0 ==> r >= balance
  {
    balance + amount
  }

  /** A successful debit followed by a credit of the same amount restores the balance:
      this is the refund used when a purchase cannot be completed. */
  lemma RefundRestores(balance: real, amount: real)
    requires Debit(balance, amount).1
    ensures Credit(Debit(balance, amount).0, amount) == balance
  {
  }

  /** Takes one unit out of the stock when there is one.
      Returns the new stock and whether a unit was taken. */
  function TakeOne(stock: nat): (r: (nat, bool))
    ensures r.1 <==> stock > 0
    ensures r.0 + (if r.1 then 1 else 0) == stock
  {
    if stock > 0 then (stock - 1, true) else (stock, false)
  }
}
