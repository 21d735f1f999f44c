/** The `/api/credit-card` route: GET reports the card, POST pays the bill
    from the balance, PUT changes the limit or due day, DELETE resets the
    statement and marks the card purchases as paid. */
module CreditCardRoute {
  import opened Ledger
  import opened Store
  import opened Queries
  import opened DueDates

  // ---------------------------------------------------------------- GET

  /** The fields of a card purchase the GET lists. */
  datatype CardRow = CardRow(amount: real, category: string, description: string, createdAt: Stamp)

  datatype CardReply =
    | CardDefaults(limit: real, used: real, available: real, dueDay: int)
    | CardInfo(limit: real, used: real, available: real, dueDay: int, daysUntilDue: int,
               percentUsed: Option<real>, recent: seq<CardRow>)

  /** `credit_due_day || 15`: a zero due day falls back to the 15th. */
  function EffectiveDueDay(d: int): (r: int)
    ensures r != 0
    ensures d != 0 ==> r == d
    ensures d == 0 ==> r == 15
  {
    if d == 0 then 15 else d
  }

  /** `used / limit * 100`; with a zero limit JavaScript yields a non-finite
      number, which `None` stands for. */
  function PercentUsed(used: real, limit: real): (r: Option<real>)
    ensures r.None? <==> limit == 0.0
    ensures r.Some? ==> r.value * limit == used * 100.0
  {
    if limit == 0.0 then None else Some(used / limit * 100.0)
  }

  /** `WHERE type = 'credit'`: the card purchases, in ledger order. */
  function CreditRows(rows: seq<Txn>): (r: seq<Txn>)
    ensures forall i :: 0 <= i < |r| ==> r[i].kind == Credit
    ensures multiset(r) <= multiset(rows)
    ensures forall i :: 0 <= i < |rows| && rows[i].kind == Credit ==> rows[i] in r
    ensures forall x :: multiset(r)[x] == (if x.kind == Credit then multiset(rows)[x] else 0)
  {
    if rows == [] then []
    else
      var rest := CreditRows(rows[..|rows| - 1]);
      var last := rows[|rows| - 1];
      assert rows == rows[..|rows| - 1] + [last];
      assert forall i :: 0 <= i < |rows| - 1 ==> rows[i] == rows[..|rows| - 1][i];
      if last.kind == Credit then rest + [last] else rest
  }

  function AsCardRow(t: Txn): CardRow
  {
    CardRow(t.amount, t.category, t.description, t.createdAt)
  }

  /** Each row shown as its card row, in order. */
  function AsCardRows(rows: seq<Txn>): (r: seq<CardRow>)
    ensures |r| == |rows|
    ensures forall i :: 0 <= i < |r| ==> r[i] == AsCardRow(rows[i])
  {
    seq(|rows|, i requires 0 <= i < |rows| => AsCardRow(rows[i]))
  }

  /** The ten newest card purchases: as many as there are up to ten, each a
      card purchase of the ledger, newest first, and no card purchase left
      out is later than the last one kept. */
  lemma LatestAreCardRows(ledger: seq<Txn>)
    ensures var credits := CreditRows(ledger);
      var latest := Newest(credits, 10);
      && |latest| == Min(10, |credits|)
      && NewestFirst(latest)
      && multiset(latest) <= multiset(credits)
      && (forall i :: 0 <= i < |latest| ==> latest[i] in ledger && latest[i].kind == Credit)
      && (latest != [] ==>
            forall x :: x in multiset(credits) - multiset(latest) ==>
              NotAfter(x.createdAt, latest[|latest| - 1].createdAt))
  {
    var credits := CreditRows(ledger);
    var latest := Newest(credits, 10);
    NewestSpec(credits, 10);
    if credits != [] {
      NewestComplete(credits, 10);
    }
    forall i | 0 <= i < |latest| ensures latest[i] in ledger && latest[i].kind == Credit {
      assert latest[i] in multiset(latest);
      assert multiset(credits)[latest[i]] > 0;
    }
  }

  /** `WHERE type = 'credit' ORDER BY created_at DESC LIMIT 10`: the card rows
      of the newest ten card purchases, in that order. */
  function LatestPurchases(ledger: seq<Txn>): (r: seq<CardRow>)
    ensures |r| == Min(10, |CreditRows(ledger)|)
    ensures forall i :: 0 <= i < |r| ==> r[i] == AsCardRow(Newest(CreditRows(ledger), 10)[i])
    ensures forall i, j :: 0 <= i < j < |r| ==> NotAfter(r[j].createdAt, r[i].createdAt)
  {
    LatestAreCardRows(ledger);
    AsCardRows(Newest(CreditRows(ledger), 10))
  }

  /** GET: defaults when there is no account row; otherwise limit, debt,
      what is available, the stored due day, the days until it is due (the
      wait uses the falling-back due day and the length of the current
      month), the share of the limit used and the latest card purchases. */
  function Get(account: Option<Account>, ledger: seq<Txn>, today: Date): (r: CardReply)
    requires 1 <= today.month <= 12
    ensures account.None? <==> r == CardDefaults(5000.0, 0.0, 5000.0, 15)
    ensures account.Some? ==>
      && r.CardInfo?
      && r.limit == account.value.creditLimit && r.used == account.value.creditUsed
      && r.available == r.limit - r.used
      && r.dueDay == account.value.dueDay
      && r.daysUntilDue == DaysUntilDue(EffectiveDueDay(r.dueDay), today.day, DaysInMonth(today.year, today.month))
      && r.percentUsed == PercentUsed(r.used, r.limit)
      && r.recent == LatestPurchases(ledger)
  {
    match account
    case None => CardDefaults(5000.0, 0.0, 5000.0, 15)
    case Some(a) =>
      var wait := DaysUntilDue(EffectiveDueDay(a.dueDay), today.day, DaysInMonth(today.year, today.month));
      var percent := PercentUsed(a.creditUsed, a.creditLimit);
      CardInfo(a.creditLimit, a.creditUsed, a.creditLimit - a.creditUsed, a.dueDay,
               wait, percent, LatestPurchases(ledger))
  }

  // ---------------------------------------------------------------- POST

  /** The `paymentType` of a bill payment; a missing one means a full payment. */
  datatype PaymentKind = Full | Minimum | Partial

  function ClassifyPayment(paymentType: Option<string>): (k: PaymentKind)
    ensures k == Full <==> paymentType == None || paymentType == Some("full")
    ensures k == Minimum <==> paymentType == Some("minimum")
  {
    match paymentType
    case None => Full
    case Some(s) => if s == "full" then Full else if s == "minimum" then Minimum else Partial
  }

  function MinReal(a: real, b: real): real
  {
    if a <= b then a else b
  }

  /** The amount to pay: the whole debt, the minimum `min(15% of debt, debt)`,
      or the explicit amount (`parseFloat(amount) || 0`, with None for NaN). */
  function PaymentAmount(kind: PaymentKind, creditUsed: real, amount: Option<real>): real
  {
    match kind
    case Full => creditUsed
    case Minimum => MinReal(creditUsed * 0.15, creditUsed)
    case Partial => if amount.Some? then amount.value else 0.0
  }

  /** The amount the three payment kinds choose. The minimum is 15% of a
      non-negative debt and never more than the debt; an explicit amount is
      taken as it is, negative or above the debt included. */
  lemma PaymentAmountChoice(creditUsed: real, amount: Option<real>)
    ensures PaymentAmount(Full, creditUsed, amount) == creditUsed
    ensures creditUsed >= 0.0 ==>
      PaymentAmount(Minimum, creditUsed, amount) == creditUsed * 0.15
      && 0.0 <= PaymentAmount(Minimum, creditUsed, amount) <= creditUsed
    ensures creditUsed < 0.0 ==> PaymentAmount(Minimum, creditUsed, amount) == creditUsed
    ensures PaymentAmount(Partial, creditUsed, amount) == (if amount.Some? then amount.value else 0.0)
  {
  }

  const CardPaymentCategory: string := "💳 Pagamento Cartão"

  /** The description of the payment row, chosen by the payment kind. */
  function PaymentDescription(kind: PaymentKind): string
  {
    "Pagamento " + (match kind case Full => "total" case Minimum => "mínimo" case Partial => "parcial") + " da fatura"
  }

  /** The three kinds leave three different descriptions, so the payment row
      records which kind was paid. */
  lemma PaymentDescriptionsDiffer(k1: PaymentKind, k2: PaymentKind)
    ensures PaymentDescription(k1) == PaymentDescription(k2) <==> k1 == k2
  {
    if k1 != k2 {
      assert PaymentDescription(k1)[10] != PaymentDescription(k2)[10];
    }
  }

  /** The paired UPDATE: the payment leaves both the balance and the card debt. */
  function Settle(a: Account, p: real): Account
  {
    a.(balance := a.balance - p, creditUsed := a.creditUsed - p)
  }

  /** Paying moves money from the balance to the card: balance minus debt is
      unchanged, the available credit grows by the payment, and limit and due
      day stay. A full payment clears the debt. */
  lemma SettleMovesMoney(a: Account, p: real)
    ensures Net(Settle(a, p)) == Net(a)
    ensures CreditAvailable(Settle(a, p)) == CreditAvailable(a) + p
    ensures Settle(a, p).creditLimit == a.creditLimit && Settle(a, p).dueDay == a.dueDay
    ensures Settle(a, PaymentAmount(Full, a.creditUsed, None)).creditUsed == 0.0
    ensures Settle(a, PaymentAmount(Full, a.creditUsed, None)).balance == a.balance - a.creditUsed
  {
  }

  /** The code keeps the debt within [0, limit] only when the payment is the
      full or minimum one, or an explicit amount between 0 and the debt. */
  lemma PaymentKeepsDebtInRange(a: Account, kind: PaymentKind, amount: Option<real>)
    requires 0.0 <= a.creditUsed <= a.creditLimit
    requires kind == Partial ==> 0.0 <= PaymentAmount(kind, a.creditUsed, amount) <= a.creditUsed
    ensures 0.0 <= Settle(a, PaymentAmount(kind, a.creditUsed, amount)).creditUsed <= a.creditLimit
  {
  }

  /** Nothing bounds an explicit amount: paying more than the debt drives it
      negative, and a negative amount raises both the balance and the debt. */
  lemma ExplicitAmountUnchecked(a: Account, x: real)
    ensures x > a.creditUsed ==> Settle(a, PaymentAmount(Partial, a.creditUsed, Some(x))).creditUsed < 0.0
    ensures x < 0.0 ==>
      Settle(a, PaymentAmount(Partial, a.creditUsed, Some(x))).creditUsed > a.creditUsed
      && Settle(a, PaymentAmount(Partial, a.creditUsed, Some(x))).balance > a.balance
  {
  }

  datatype PaymentReply = PaymentReply(paidAmount: real, newBalance: real, newCreditUsed: real, creditAvailable: real)

  /** POST: read the account (404 without one), choose the amount, refuse it
      when it exceeds the balance (400); then BEGIN, UPDATE balance and debt,
      INSERT the payment row, COMMIT. A failing write rolls both back (500). */
  method Post(db: Database, amount: Option<real>, paymentType: Option<string>, now: Stamp, fault: Fault)
    returns (r: Result<PaymentReply>)
    requires db.Valid()
    modifies db
    ensures db.Valid()
    ensures old(db.account).None? ==>
      r == Err(ApiError(404, "Conta não encontrada")) && db.State() == old(db.State())
    ensures old(db.account).Some? ==>
      var a := old(db.account).value;
      var kind := ClassifyPayment(paymentType);
      var p := PaymentAmount(kind, a.creditUsed, amount);
      && (p > a.balance ==>
            r == Err(ApiError(400, "Saldo insuficiente para pagar a fatura")) && db.State() == old(db.State()))
      && (p <= a.balance && (Fails(fault, 1) || Fails(fault, 2)) ==>
            r == Err(ApiError(500, "Erro ao processar pagamento")) && db.State() == old(db.State()))
      && (p <= a.balance && !Fails(fault, 1) && !Fails(fault, 2) ==>
            var b := Settle(a, p);
            && r == Ok(PaymentReply(p, b.balance, b.creditUsed, CreditAvailable(b)))
            && db.account == Some(b)
            && db.ledger == old(db.ledger) + [Txn(old(db.nextId), Debit, p, CardPaymentCategory, PaymentDescription(kind), now)]
            && db.nextId == old(db.nextId) + 1)
  {
    if db.account.None? {
      return Err(ApiError(404, "Conta não encontrada"));
    }
    var a := db.account.value;
    var kind := ClassifyPayment(paymentType);
    var p := PaymentAmount(kind, a.creditUsed, amount);
    if p > a.balance {
      return Err(ApiError(400, "Saldo insuficiente para pagar a fatura"));
    }
    var saved := db.State();
    if Fails(fault, 1) {
      db.Restore(saved);
      return Err(ApiError(500, "Erro ao processar pagamento"));
    }
    db.account := Some(Settle(a, p));
    if Fails(fault, 2) {
      db.Restore(saved);
      return Err(ApiError(500, "Erro ao processar pagamento"));
    }
    db.Insert(Debit, p, CardPaymentCategory, PaymentDescription(kind), now);
    var b := db.account.value;
    return Ok(PaymentReply(p, b.balance, b.creditUsed, b.creditLimit - b.creditUsed));
  }

  // ---------------------------------------------------------------- PUT

  /** One `column = ?` assignment the PUT collects. */
  datatype Setting = SetLimit(limit: real) | SetDueDay(day: int)

  function ApplySettings(a: Account, updates: seq<Setting>): Account
    decreases updates
  {
    if updates == [] then a
    else
      var s := updates[0];
      var b := match s case SetLimit(l) => a.(creditLimit := l) case SetDueDay(d) => a.(dueDay := d);
      ApplySettings(b, updates[1..])
  }

  /** What a settings change means: each supplied field takes its new value,
      every other field keeps its old one. */
  function WithSettings(a: Account, creditLimit: Option<real>, dueDay: Option<int>): (b: Account)
    ensures b.balance == a.balance && b.creditUsed == a.creditUsed
    ensures b.creditLimit == (if creditLimit.Some? then creditLimit.value else a.creditLimit)
    ensures b.dueDay == (if dueDay.Some? then dueDay.value else a.dueDay)
  {
    Account(a.balance,
            if creditLimit.Some? then creditLimit.value else a.creditLimit,
            a.creditUsed,
            if dueDay.Some? then dueDay.value else a.dueDay)
  }

  datatype CardSettings = CardSettings(limit: real, used: real, available: real, dueDay: int)

  /** PUT: collect an assignment per supplied field (400 when none is),
      run one UPDATE, then read the row back; with no account row that read
      fails and the reply is a 500. The ledger is never touched. */
  method Put(db: Database, creditLimit: Option<real>, dueDay: Option<int>, fault: Fault)
    returns (r: Result<CardSettings>)
    requires db.Valid()
    modifies db
    ensures db.Valid()
    ensures db.ledger == old(db.ledger) && db.nextId == old(db.nextId)
    ensures creditLimit.None? && dueDay.None? ==>
      r == Err(ApiError(400, "Nenhum dado para atualizar")) && db.account == old(db.account)
    ensures (creditLimit.Some? || dueDay.Some?) && Fails(fault, 1) ==>
      r == Err(ApiError(500, "Erro ao atualizar configurações do cartão")) && db.account == old(db.account)
    ensures (creditLimit.Some? || dueDay.Some?) && !Fails(fault, 1) ==>
      && (old(db.account).None? ==>
            r == Err(ApiError(500, "Erro ao atualizar configurações do cartão")) && db.account == None)
      && (old(db.account).Some? ==>
            var b := WithSettings(old(db.account).value, creditLimit, dueDay);
            db.account == Some(b) && r == Ok(CardSettings(b.creditLimit, b.creditUsed, CreditAvailable(b), b.dueDay)))
  {
    var updates: seq<Setting> := [];
    if creditLimit.Some? {
      updates := updates + [SetLimit(creditLimit.value)];
    }
    if dueDay.Some? {
      updates := updates + [SetDueDay(dueDay.value)];
    }
    if |updates| == 0 {
      return Err(ApiError(400, "Nenhum dado para atualizar"));
    }
    if Fails(fault, 1) {
      return Err(ApiError(500, "Erro ao atualizar configurações do cartão"));
    }
    if db.account.None? {
      return Err(ApiError(500, "Erro ao atualizar configurações do cartão"));
    }
    var b := ApplySettings(db.account.value, updates);
    assert b == WithSettings(db.account.value, creditLimit, dueDay) by {
      var a := db.account.value;
      if creditLimit.Some? && dueDay.Some? {
        assert updates == [SetLimit(creditLimit.value), SetDueDay(dueDay.value)];
        assert updates[1..] == [SetDueDay(dueDay.value)];
        assert updates[1..][1..] == [];
        var a1 := a.(creditLimit := creditLimit.value);
        var a2 := a1.(dueDay := dueDay.value);
        assert ApplySettings(a2, updates[1..][1..]) == a2;
        assert ApplySettings(a1, updates[1..]) == a2;
        assert ApplySettings(a, updates) == a2;
      } else if creditLimit.Some? {
        assert updates == [SetLimit(creditLimit.value)];
        assert updates[1..] == [];
        assert ApplySettings(a, updates) == ApplySettings(a.(creditLimit := creditLimit.value), []);
      } else {
        assert updates == [SetDueDay(dueDay.value)];
        assert updates[1..] == [];
        assert ApplySettings(a, updates) == ApplySettings(a.(dueDay := dueDay.value), []);
      }
    }
    db.account := Some(b);
    return Ok(CardSettings(b.creditLimit, b.creditUsed, b.creditLimit - b.creditUsed, b.dueDay));
  }

  // ---------------------------------------------------------------- DELETE

  const PaidTag: string := "[FATURA PAGA]"

  /** ASCII case folding, as SQLite's LIKE applies it. */
  function LowerChar(c: char): char
  {
    if 'A' <= c <= 'Z' then (c as int - 'A' as int + 'a' as int) as char else c
  }

  function Lower(s: string): (r: string)
    ensures |r| == |s|
    ensures forall i :: 0 <= i < |s| ==> r[i] == LowerChar(s[i])
  {
    seq(|s|, i requires 0 <= i < |s| => LowerChar(s[i]))
  }

  predicate OccursAt(s: string, part: string, i: int)
  {
    0 <= i <= |s| - |part| && s[i..i + |part|] == part
  }

  predicate Contains(s: string, part: string)
  {
    exists i :: 0 <= i <= |s| - |part| && OccursAt(s, part, i)
  }

  /** `description LIKE '%[FATURA PAGA]%'`: the tag occurs, ignoring ASCII case. */
  predicate HasPaidTag(description: string)
  {
    Contains(Lower(description), Lower(PaidTag))
  }

  /** The relabelling of one row: a card purchase not yet tagged gets ' [FATURA PAGA]' appended. */
  function MarkPaid(t: Txn): Txn
  {
    if t.kind == Credit && !HasPaidTag(t.description) then t.(description := t.description + " " + PaidTag)
    else t
  }

  /** The ledger after the relabelling UPDATE. */
  function MarkAllPaid(rows: seq<Txn>): (r: seq<Txn>)
    ensures |r| == |rows|
    ensures forall i :: 0 <= i < |rows| ==> r[i] == MarkPaid(rows[i])
  {
    seq(|rows|, i requires 0 <= i < |rows| => MarkPaid(rows[i]))
  }

  /** `UPDATE accounts SET credit_used = 0`. */
  function ZeroDebt(account: Option<Account>): Option<Account>
  {
    match account
    case None => None
    case Some(a) => Some(a.(creditUsed := 0.0))
  }

  lemma LowerAppend(a: string, b: string)
    ensures Lower(a + b) == Lower(a) + Lower(b)
  {
  }

  lemma LowerIdempotent(d: string)
    ensures Lower(Lower(d)) == Lower(d)
  {
    forall i | 0 <= i < |d|
      ensures Lower(Lower(d))[i] == Lower(d)[i]
    {
    }
  }

  /** The tag in any ASCII case, with any text around it. */
  lemma PaidTagFoundAnywhere(before: string, tag: string, after: string)
    requires Lower(tag) == Lower(PaidTag)
    ensures HasPaidTag(before + tag + after)
  {
    assert OccursAt(Lower(tag), Lower(PaidTag), 0);
    PaidTagSurvivesText(tag, after);
    PaidTagSurvivesText(tag + after, before);
    assert before + tag + after == before + (tag + after);
  }

  /** LIKE matches the tag written in any ASCII case anywhere in the text, and
      texts that differ only in ASCII case are matched alike. */
  lemma PaidTagMatching(before: string, tag: string, after: string, d: string, e: string)
    ensures Lower(tag) == Lower(PaidTag) ==> HasPaidTag(before + tag + after)
    ensures Lower(d) == Lower(e) ==> (HasPaidTag(d) <==> HasPaidTag(e))
    ensures HasPaidTag(d) <==> HasPaidTag(Lower(d))
  {
    if Lower(tag) == Lower(PaidTag) {
      PaidTagFoundAnywhere(before, tag, after);
    }
    LowerIdempotent(d);
  }

  /** The two spellings the route and a user would write. */
  lemma PaidTagExamples()
    ensures HasPaidTag(PaidTag) && HasPaidTag("Cinema [fatura paga]")
  {
    var tag := Lower(PaidTag);
    assert OccursAt(Lower(PaidTag), tag, 0);
    var s := "Cinema [fatura paga]";
    assert Lower(s)[7..20] == tag;
    assert OccursAt(Lower(s), tag, 7);
  }

  /** LIKE does not match a text shorter than the tag, nor one without its
      opening bracket. */
  lemma PaidTagMissing(d: string)
    ensures |d| < |PaidTag| ==> !HasPaidTag(d)
    ensures '[' !in d ==> !HasPaidTag(d)
    ensures !HasPaidTag("Cinema") && !HasPaidTag("")
  {
    if '[' !in d {
      var tag := Lower(PaidTag);
      forall i | 0 <= i <= |Lower(d)| - |tag|
        ensures !OccursAt(Lower(d), tag, i)
      {
        assert d[i] != '[';
        assert Lower(d)[i] != tag[0];
        assert Lower(d)[i..i + |tag|][0] == Lower(d)[i];
      }
    }
  }

  /** Once a description carries the tag, text added before or after keeps it. */
  lemma PaidTagSurvivesText(d: string, e: string)
    requires HasPaidTag(d)
    ensures HasPaidTag(d + e) && HasPaidTag(e + d)
  {
    var tag := Lower(PaidTag);
    var i :| 0 <= i <= |Lower(d)| - |tag| && OccursAt(Lower(d), tag, i);
    LowerAppend(d, e);
    LowerAppend(e, d);
    assert (Lower(d) + Lower(e))[i..i + |tag|] == Lower(d)[i..i + |tag|];
    assert OccursAt(Lower(d + e), tag, i);
    assert (Lower(e) + Lower(d))[|e| + i..|e| + i + |tag|] == Lower(d)[i..i + |tag|];
    assert OccursAt(Lower(e + d), tag, |e| + i);
  }

  /** After the relabelling every card purchase carries the tag. */
  lemma MarkedRowIsTagged(t: Txn)
    requires t.kind == Credit
    ensures HasPaidTag(MarkPaid(t).description)
  {
    if !HasPaidTag(t.description) {
      var d := t.description;
      var tag := Lower(PaidTag);
      LowerAppend(d, " " + PaidTag);
      LowerAppend(" ", PaidTag);
      var l := Lower(d + " " + PaidTag);
      assert l == Lower(d) + Lower(" ") + tag;
      var i := |d| + 1;
      assert OccursAt(l, tag, i);
    }
  }

  /** For one row: only the description of an untagged card purchase changes,
      by the appended tag, and a card purchase ends up tagged. */
  lemma MarkPaidOnlyRelabels(t: Txn)
    ensures MarkPaid(t) == t.(description := MarkPaid(t).description)
    ensures t.kind != Credit || HasPaidTag(t.description) ==> MarkPaid(t) == t
    ensures t.kind == Credit && !HasPaidTag(t.description) ==>
      MarkPaid(t).description == t.description + " [FATURA PAGA]"
    ensures t.kind == Credit ==> HasPaidTag(MarkPaid(t).description)
  {
    if t.kind == Credit {
      MarkedRowIsTagged(t);
    }
  }

  /** The relabelling changes only descriptions, and only of untagged card
      purchases, by appending the tag; every other row and field stays. */
  lemma {:induction false} MarkAllPaidOnlyRelabels(rows: seq<Txn>)
    ensures var r := MarkAllPaid(rows);
      forall i :: 0 <= i < |rows| ==>
        && r[i] == rows[i].(description := r[i].description)
        && (rows[i].kind != Credit || HasPaidTag(rows[i].description) ==> r[i] == rows[i])
        && (rows[i].kind == Credit && !HasPaidTag(rows[i].description) ==>
              r[i].description == rows[i].description + " [FATURA PAGA]")
        && (rows[i].kind == Credit ==> HasPaidTag(r[i].description))
  {
    var r := MarkAllPaid(rows);
    forall i | 0 <= i < |rows|
      ensures && r[i] == rows[i].(description := r[i].description)
              && (rows[i].kind != Credit || HasPaidTag(rows[i].description) ==> r[i] == rows[i])
              && (rows[i].kind == Credit && !HasPaidTag(rows[i].description) ==>
                    r[i].description == rows[i].description + " [FATURA PAGA]")
              && (rows[i].kind == Credit ==> HasPaidTag(r[i].description))
    {
      MarkPaidOnlyRelabels(rows[i]);
    }
  }

  /** A second reset changes nothing: the debt is already zero and every card
      purchase already carries the tag. */
  lemma {:induction false} ResetIdempotent(account: Option<Account>, rows: seq<Txn>)
    ensures ZeroDebt(ZeroDebt(account)) == ZeroDebt(account)
    ensures MarkAllPaid(MarkAllPaid(rows)) == MarkAllPaid(rows)
  {
    var once := MarkAllPaid(rows);
    forall i | 0 <= i < |rows| ensures MarkPaid(once[i]) == once[i] {
      if rows[i].kind == Credit {
        MarkedRowIsTagged(rows[i]);
      }
    }
  }

  /** The relabelling does not re-aggregate: every ledger sum stays the same. */
  lemma MarkAllPaidKeepsTotals(rows: seq<Txn>, types: set<TxnType>, p: Period)
    ensures Total(MarkAllPaid(rows), types, p) == Total(rows, types, p)
  {
    TotalIgnoresLabels(MarkAllPaid(rows), rows, types, p);
  }

  /** DELETE: zero the debt, then relabel the card purchases. The two writes
      are not in one SQL transaction: when the second fails the first stays. */
  method Delete(db: Database, fault: Fault) returns (r: Result<string>)
    requires db.Valid()
    modifies db
    ensures db.Valid()
    ensures db.nextId == old(db.nextId)
    ensures Fails(fault, 1) ==>
      r == Err(ApiError(500, "Erro ao zerar fatura")) && db.State() == old(db.State())
    ensures !Fails(fault, 1) && Fails(fault, 2) ==>
      r == Err(ApiError(500, "Erro ao zerar fatura"))
      && db.account == ZeroDebt(old(db.account)) && db.ledger == old(db.ledger)
    ensures !Fails(fault, 1) && !Fails(fault, 2) ==>
      r == Ok("Fatura do cartão foi zerada")
      && db.account == ZeroDebt(old(db.account)) && db.ledger == MarkAllPaid(old(db.ledger))
  {
    if Fails(fault, 1) {
      return Err(ApiError(500, "Erro ao zerar fatura"));
    }
    db.account := ZeroDebt(db.account);
    if Fails(fault, 2) {
      return Err(ApiError(500, "Erro ao zerar fatura"));
    }
    MarkAllPaidOnlyRelabels(db.ledger);
    db.ledger := MarkAllPaid(db.ledger);
    return Ok("Fatura do cartão foi zerada");
  }
}
