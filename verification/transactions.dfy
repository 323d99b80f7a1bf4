/** The ledger entry stored by the tracker. */
module Transactions {

  /** One income or expense record. `Tracker.hh` keeps the amount as a
      floating-point number; here it is an exact number of cents, so that
      sums and comparisons carry no rounding. Its `type` field is
      called `kind` because `type` is a Dafny keyword. */
  datatype Transaction = Transaction(
    date: string,         // expected as YYYY-MM-DD, never checked
    description: string,
    category: string,
    kind: char,           // 'I' income, 'E' expense; any other character is kept
    amount: int)

  const Income: char := 'I'
  const Expense: char := 'E'

  /** What the default constructor produces; fills freshly allocated array slots. */
  const Blank: Transaction := Transaction("0000-00-00", "", "", Expense, 0)
}
