/** The records the ledger keeps: one per realized transaction in `trail`
    and one per pending reminder in `pendingBills`. */
module Entries {

  /** The `type` field: the two values of the form's type selector. */
  datatype Kind = Income | Expense

  /** The text the script stores and compares for a kind. */
  function KindName(k: Kind): (s: string)
    ensures s == "income" || s == "expense"
  {
    match k
    case Income => "income"
    case Expense => "expense"
  }

  /** A ledger record. `amount` is in whole currency units; `date` is the text
      of the form's date input (normally `YYYY-MM-DD`); an absent description
      is the empty string. */
  datatype Entry = Entry(
    id: int,
    kind: Kind,
    amount: int,
    date: string,
    category: string,
    description: string,
    recurring: bool)
}
