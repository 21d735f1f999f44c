/** Concrete request sequences, proved from the routes' contracts alone. */
module Scenarios {
  import opened Ledger
  import opened Store
  import TransactionsRoute
  import CreditCardRoute
  import DueDates

  /** A lunch on the debit card lowers the balance by its price and adds one
      debit row; a failure of the account UPDATE leaves no trace at all. */
  method RecordLunch()
  {
    var now := Stamp(Date(2025, 3, 10), 45000);
    var db := new Database(Some(Account(100.0, 5000.0, 0.0, 15)));
    var r := TransactionsRoute.Post(db, "debit", 12.5, "Food", "Lunch", now, NoFault);
    assert r.Ok?;
    assert db.account == Some(Account(87.5, 5000.0, 0.0, 15));
    assert db.ledger == [Txn(1, Debit, 12.5, "Food", "Lunch", now)];

    var failed := TransactionsRoute.Post(db, "debit", 12.5, "Food", "Lunch", now, FailWrite(2, "disk I/O error"));
    assert failed.Err? && failed.error.status == 500;
    assert db.account == Some(Account(87.5, 5000.0, 0.0, 15)) && |db.ledger| == 1;

    var bad := TransactionsRoute.Post(db, "refund", 5.0, "Food", "", now, NoFault);
    assert bad.Err? && |db.ledger| == 1;
  }

  /** Paying a debt of 45.00 in full from 100.00 leaves 55.00 and no debt;
      paying a debt of 200.00 from 50.00 is refused and changes nothing. */
  method PayBill()
  {
    var now := Stamp(Date(2025, 3, 10), 50000);
    var db := new Database(Some(Account(100.0, 5000.0, 45.0, 15)));
    var r := CreditCardRoute.Post(db, None, Some("full"), now, NoFault);
    assert r == Ok(CreditCardRoute.PaymentReply(45.0, 55.0, 0.0, 5000.0));

    var poor := new Database(Some(Account(50.0, 5000.0, 200.0, 15)));
    var refused := CreditCardRoute.Post(poor, None, Some("full"), now, NoFault);
    assert refused == Err(ApiError(400, "Saldo insuficiente para pagar a fatura"));
    assert poor.account == Some(Account(50.0, 5000.0, 200.0, 15)) && poor.ledger == [];
  }

  /** Resetting the statement twice: the second reset finds nothing to change. */
  method ResetTwice()
  {
    var now := Stamp(Date(2025, 3, 10), 50000);
    var db := new Database(Some(Account(100.0, 5000.0, 0.0, 15)));
    var bought := TransactionsRoute.Post(db, "credit", 30.0, "Lazer", "Cinema", now, NoFault);
    assert bought.Ok?;
    var before := db.State();
    var first := CreditCardRoute.Delete(db, NoFault);
    var afterFirst := db.State();
    var second := CreditCardRoute.Delete(db, NoFault);
    assert first.Ok? && second.Ok?;
    CreditCardRoute.ResetIdempotent(before.account, before.ledger);
    assert db.State() == afterFirst;
  }

  /** The due date rolls over into the next month once it has passed: on the
      20th of a 30-day month the 15th is 25 days away. */
  method DueDays()
  {
    assert DueDates.DaysUntilDue(15, 20, 30) == 25;
    assert DueDates.DaysUntilDue(15, 10, 30) == 5;
  }
}
