/** The `/api/balance` route: GET reports the account with today's and this
    month's sums; PUT applies a manual balance adjustment and records it. */
module BalanceRoute {
  import opened Ledger
  import opened Store
  import opened Queries
  import Config
  import TransactionsRoute
  import CreditCardRoute

  // ---------------------------------------------------------------- GET

  const ExpenseTypes: set<TxnType> := {Debit, Credit}
  const IncomeTypes: set<TxnType> := {Income, Salary}

  function TodayExpenses(ledger: seq<Txn>, today: Date): real
  {
    Total(ledger, ExpenseTypes, Day(today))
  }

  function MonthExpenses(ledger: seq<Txn>, today: Date): real
  {
    Total(ledger, ExpenseTypes, Month(today.year, today.month))
  }

  function MonthIncome(ledger: seq<Txn>, today: Date): real
  {
    Total(ledger, IncomeTypes, Month(today.year, today.month))
  }

  function MonthBalance(ledger: seq<Txn>, today: Date): real
  {
    MonthIncome(ledger, today) - MonthExpenses(ledger, today)
  }

  /** The GET reply; the default reply carries no `monthBalance`. */
  datatype Summary = Summary(balance: real, creditLimit: real, creditUsed: real, creditAvailable: real,
                             todayExpenses: real, monthExpenses: real, monthIncome: real,
                             monthBalance: Option<real>)

  /** GET: without an account row, fixed defaults; otherwise the account's
      fields, what the card has available, and the three sums with the
      month's net. */
  function Get(account: Option<Account>, ledger: seq<Txn>, today: Date): (r: Summary)
    ensures account.None? <==> r == Summary(0.0, 5000.0, 0.0, 5000.0, 0.0, 0.0, 0.0, None)
    ensures account.Some? ==>
      && r.balance == account.value.balance
      && r.creditLimit == account.value.creditLimit && r.creditUsed == account.value.creditUsed
      && r.creditAvailable == r.creditLimit - r.creditUsed
      && r.todayExpenses == TodayExpenses(ledger, today)
      && r.monthExpenses == MonthExpenses(ledger, today)
      && r.monthIncome == MonthIncome(ledger, today)
      && r.monthBalance == Some(r.monthIncome - r.monthExpenses)
  {
    match account
    case None => Summary(0.0, 5000.0, 0.0, 5000.0, 0.0, 0.0, 0.0, None)
    case Some(a) =>
      var expenses := MonthExpenses(ledger, today);
      var income := MonthIncome(ledger, today);
      Summary(a.balance, a.creditLimit, a.creditUsed, a.creditLimit - a.creditUsed,
              TodayExpenses(ledger, today), expenses, income, Some(income - expenses))
  }

  /** With amounts the amount validator accepts, every sum is non-negative and
      today's expenses never exceed the month's. */
  lemma {:induction false} ValidatedAmountsOrderSums(ledger: seq<Txn>, today: Date)
    requires forall i :: 0 <= i < |ledger| ==> Config.ValidAmount(Some(ledger[i].amount))
    ensures 0.0 <= TodayExpenses(ledger, today) <= MonthExpenses(ledger, today)
    ensures MonthIncome(ledger, today) >= 0.0
  {
    TotalNonNegative(ledger, ExpenseTypes, Day(today));
    TotalNonNegative(ledger, IncomeTypes, Month(today.year, today.month));
    DayWithinMonth(ledger, ExpenseTypes, today);
  }

  /** Income and expenses split the month: every row of the month is counted
      in exactly one of the two sums. */
  lemma {:induction false} MonthSumsPartition(ledger: seq<Txn>, today: Date)
    ensures MonthIncome(ledger, today) + MonthExpenses(ledger, today)
         == Total(ledger, {Debit, Credit, Income, Salary}, Month(today.year, today.month))
  {
    TotalSplit(ledger, IncomeTypes, ExpenseTypes, Month(today.year, today.month));
    assert IncomeTypes + ExpenseTypes == {Debit, Credit, Income, Salary};
  }

  /** A row recorded this month through POST /api/transactions moves the
      month's net by exactly what it moves balance minus card debt, and an
      expense recorded today raises today's expenses by its amount. */
  lemma {:induction false} RecordedRowMovesMonth(a: Account, ledger: seq<Txn>, row: Txn, today: Date)
    requires row.createdAt.date.year == today.year && row.createdAt.date.month == today.month
    ensures Net(TransactionsRoute.Apply(a, row.kind, row.amount)) - Net(a)
         == MonthBalance(ledger + [row], today) - MonthBalance(ledger, today)
    ensures row.createdAt.date == today && IsExpense(row.kind) ==>
      TodayExpenses(ledger + [row], today) == TodayExpenses(ledger, today) + row.amount
  {
    TotalAppend(ledger, row, ExpenseTypes, Month(today.year, today.month));
    TotalAppend(ledger, row, IncomeTypes, Month(today.year, today.month));
    TotalAppend(ledger, row, ExpenseTypes, Day(today));
  }

  /** A card bill payment made this month leaves balance minus card debt where
      it was, yet its debit row lowers the month's net by the amount paid:
      a purchase on the card is counted once when made and again when paid. */
  lemma {:induction false} PaymentCountedAgain(a: Account, ledger: seq<Txn>, row: Txn, today: Date)
    requires row.kind == Debit
    requires row.createdAt.date.year == today.year && row.createdAt.date.month == today.month
    ensures Net(CreditCardRoute.Settle(a, row.amount)) == Net(a)
    ensures MonthBalance(ledger + [row], today) == MonthBalance(ledger, today) - row.amount
  {
    TotalAppend(ledger, row, ExpenseTypes, Month(today.year, today.month));
    TotalAppend(ledger, row, IncomeTypes, Month(today.year, today.month));
  }

  // ---------------------------------------------------------------- PUT

  const AdjustmentCategory: string := "⚙️ Ajuste"

  /** The row a manual adjustment inserts: income for a positive adjustment,
      otherwise a debit, of the adjustment's absolute value. */
  function AdjustmentRow(id: nat, adjustment: real, description: Option<string>, now: Stamp): (t: Txn)
    ensures adjustment != 0.0 ==> Config.ValidAmount(Some(t.amount))
    ensures t.id == id && t.createdAt == now && t.category == AdjustmentCategory
    ensures t.description == (if description.Some? then description.value else "Ajuste manual")
    ensures IsExpense(t.kind) <==> adjustment <= 0.0
  {
    Txn(id, if adjustment > 0.0 then Income else Debit,
        if adjustment >= 0.0 then adjustment else -adjustment,
        AdjustmentCategory,
        if description.Some? then description.value else "Ajuste manual",
        now)
  }

  /** The adjustment row read with the impact table gives back the adjustment,
      and recording it as a transaction would move the account exactly as the
      adjustment does. */
  lemma AdjustmentRowRoundTrip(a: Account, id: nat, adjustment: real, description: Option<string>, now: Stamp)
    requires adjustment != 0.0
    ensures var row := AdjustmentRow(id, adjustment, description, now);
      && row.amount > 0.0
      && (row.kind == Income <==> adjustment > 0.0)
      && (if Config.TransactionTypes(row.kind).impact == Config.Positive then row.amount else -row.amount) == adjustment
      && TransactionsRoute.Apply(a, row.kind, row.amount) == a.(balance := a.balance + adjustment)
  {
  }

  /** A completed adjustment moves this month's net by exactly the adjustment. */
  lemma {:induction false} AdjustmentMovesMonthBalance(ledger: seq<Txn>, id: nat, adjustment: real,
                                                       description: Option<string>, now: Stamp, today: Date)
    requires adjustment != 0.0
    requires now.date.year == today.year && now.date.month == today.month
    ensures MonthBalance(ledger + [AdjustmentRow(id, adjustment, description, now)], today)
         == MonthBalance(ledger, today) + adjustment
  {
    var row := AdjustmentRow(id, adjustment, description, now);
    TotalAppend(ledger, row, ExpenseTypes, Month(today.year, today.month));
    TotalAppend(ledger, row, IncomeTypes, Month(today.year, today.month));
  }

  /** `UPDATE accounts SET balance = balance + ?`. */
  function Shifted(account: Option<Account>, adjustment: real): Option<Account>
  {
    match account
    case None => None
    case Some(a) => Some(a.(balance := a.balance + adjustment))
  }

  datatype AdjustReply = AdjustReply(newBalance: real, adjustment: real)

  /** PUT: a missing, non-numeric or zero adjustment is refused (400) before
      any write. Otherwise BEGIN, UPDATE the balance, INSERT the adjustment
      row, COMMIT; a failing write rolls both back (500). The new balance is
      then read back: with no account row that read throws after the COMMIT,
      so the reply is a 500 although the row stays recorded. */
  method Put(db: Database, adjustment: Option<real>, description: Option<string>, now: Stamp, fault: Fault)
    returns (r: Result<AdjustReply>)
    requires db.Valid()
    modifies db
    ensures db.Valid()
    ensures adjustment.None? || adjustment == Some(0.0) ==>
      r == Err(ApiError(400, "Valor de ajuste inválido")) && db.State() == old(db.State())
    ensures adjustment.Some? && adjustment.value != 0.0 && (Fails(fault, 1) || Fails(fault, 2)) ==>
      r == Err(ApiError(500, "Erro ao ajustar saldo")) && db.State() == old(db.State())
    ensures adjustment.Some? && adjustment.value != 0.0 && !Fails(fault, 1) && !Fails(fault, 2) ==>
      && db.account == Shifted(old(db.account), adjustment.value)
      && db.ledger == old(db.ledger) + [AdjustmentRow(old(db.nextId), adjustment.value, description, now)]
      && db.nextId == old(db.nextId) + 1
      && (old(db.account).Some? ==> r == Ok(AdjustReply(old(db.account).value.balance + adjustment.value, adjustment.value)))
      && (old(db.account).None? ==> r == Err(ApiError(500, "Erro ao ajustar saldo")))
  {
    if adjustment.None? || adjustment.value == 0.0 {
      return Err(ApiError(400, "Valor de ajuste inválido"));
    }
    var x := adjustment.value;
    var saved := db.State();
    if Fails(fault, 1) {
      db.Restore(saved);
      return Err(ApiError(500, "Erro ao ajustar saldo"));
    }
    db.account := Shifted(db.account, x);
    if Fails(fault, 2) {
      db.Restore(saved);
      return Err(ApiError(500, "Erro ao ajustar saldo"));
    }
    var row := AdjustmentRow(db.nextId, x, description, now);
    db.Insert(row.kind, row.amount, row.category, row.description, now);
    if db.account.None? {
      return Err(ApiError(500, "Erro ao ajustar saldo"));
    }
    return Ok(AdjustReply(db.account.value.balance, x));
  }
}
