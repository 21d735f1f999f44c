/** The values shared by every route: the two tables of the store (one account
    row, the transaction ledger), calendar keys, and the shape of replies. */
module Ledger {

  datatype Option<T> = None | Some(value: T)

  /** The four values the CHECK constraint on `transactions.type` admits. */
  datatype TxnType = Debit | Credit | Income | Salary

  /** The text stored in the `type` column for each transaction type. */
  function TypeName(t: TxnType): string
  {
    match t
    case Debit => "debit"
    case Credit => "credit"
    case Income => "income"
    case Salary => "salary"
  }

  /** The CHECK constraint read as a parser: a type text is admitted exactly
      when it is the name of one of the four types, and then names that type. */
  function ParseType(s: string): (r: Option<TxnType>)
    ensures r.Some? ==> TypeName(r.value) == s
    ensures r.None? <==> forall t: TxnType :: TypeName(t) != s
  {
    if s == "debit" then Some(Debit)
    else if s == "credit" then Some(Credit)
    else if s == "income" then Some(Income)
    else if s == "salary" then Some(Salary)
    else None
  }

  /** Expense rows are the ones the read aggregates select with `type IN ('debit', 'credit')`. */
  predicate IsExpense(t: TxnType)
  {
    t == Debit || t == Credit
  }

  /** A calendar day; "today" and "this month" are predicates on it. */
  datatype Date = Date(year: int, month: int, day: int)

  /** A `created_at` value: a day plus the second within that day. */
  datatype Stamp = Stamp(date: Date, second: int)

  /** Chronological order of stamps (`a` is not later than `b`). */
  predicate NotAfter(a: Stamp, b: Stamp)
  {
    a.date.year < b.date.year
    || (a.date.year == b.date.year
        && (a.date.month < b.date.month
            || (a.date.month == b.date.month
                && (a.date.day < b.date.day
                    || (a.date.day == b.date.day && a.second <= b.second)))))
  }

  /** One row of the `transactions` table. */
  datatype Txn = Txn(id: nat, kind: TxnType, amount: real, category: string,
                     description: string, createdAt: Stamp)

  /** The single row of the `accounts` table (user 1). */
  datatype Account = Account(balance: real, creditLimit: real, creditUsed: real, dueDay: int)

  /** What the card can still absorb; never clamped, so it is negative when the card is over its limit. */
  function CreditAvailable(a: Account): real
  {
    a.creditLimit - a.creditUsed
  }

  /** Spendable funds net of the outstanding card balance. */
  function Net(a: Account): real
  {
    a.balance - a.creditUsed
  }

  /** An HTTP error reply: its status code and the message of its JSON body. */
  datatype ApiError = ApiError(status: nat, message: string)

  datatype Result<T> = Ok(value: T) | Err(error: ApiError)

  /** Where the storage layer fails during one request: `FailWrite(n, m)` makes
      the n-th write statement of the request raise an error with message m. */
  datatype Fault = NoFault | FailWrite(n: nat, message: string)

  predicate Fails(f: Fault, n: nat)
  {
    f.FailWrite? && f.n == n
  }

  /** SQLite's message when an INSERT violates the type CHECK constraint. */
  const CheckFailed: string := "CHECK constraint failed: type IN ('debit', 'credit', 'income', 'salary')"
}
