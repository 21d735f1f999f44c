/** The `/api/transactions` route: POST records one transaction and moves the
    account accordingly, all inside one SQL transaction; GET lists the latest
    transactions for display. */
module TransactionsRoute {
  import opened Ledger
  import opened Store
  import opened Queries
  import Config

  /** The account UPDATE that follows the INSERT, chosen by the type. */
  function Apply(a: Account, t: TxnType, amount: real): Account
  {
    match t
    case Debit => a.(balance := a.balance - amount)
    case Credit => a.(creditUsed := a.creditUsed + amount)
    case Income => a.(balance := a.balance + amount)
    case Salary => a.(balance := a.balance + amount)
  }

  /** `UPDATE accounts ... WHERE user_id = 1` changes nothing when there is no such row. */
  function Updated(account: Option<Account>, t: TxnType, amount: real): Option<Account>
  {
    match account
    case None => None
    case Some(a) => Some(Apply(a, t, amount))
  }

  /** The account update agrees with the impact table: a negative type lowers
      balance minus card debt by the amount and a positive one raises it; a
      card purchase touches only the card debt, every other type only the
      balance; limit and due day never move. */
  lemma ApplyFollowsImpact(a: Account, t: TxnType, amount: real)
    ensures var b := Apply(a, t, amount);
      && Net(b) == Net(a) + (if Config.TransactionTypes(t).impact == Config.Negative then -amount else amount)
      && (t == Credit ==> b.balance == a.balance)
      && (t != Credit ==> b.creditUsed == a.creditUsed)
      && b.creditLimit == a.creditLimit && b.dueDay == a.dueDay
  {
  }

  /** POST: BEGIN; INSERT the row; UPDATE the account by type; COMMIT. Either
      write may raise (the INSERT always does for a type outside the CHECK
      constraint); then ROLLBACK undoes everything and the reply is a 500.
      Neither the amount's sign nor the card limit is checked. */
  method Post(db: Database, kind: string, amount: real, category: string, description: string,
              now: Stamp, fault: Fault) returns (r: Result<()>)
    requires db.Valid()
    modifies db
    ensures db.Valid()
    ensures r.Ok? <==> ParseType(kind).Some? && !Fails(fault, 1) && !Fails(fault, 2)
    ensures r.Ok? ==>
      && db.ledger == old(db.ledger) + [Txn(old(db.nextId), ParseType(kind).value, amount, category, description, now)]
      && db.account == Updated(old(db.account), ParseType(kind).value, amount)
      && db.nextId == old(db.nextId) + 1
    ensures r.Err? ==> db.State() == old(db.State()) && r.error.status == 500
  {
    var saved := db.State();
    var t := ParseType(kind);
    if Fails(fault, 1) || t.None? {
      db.Restore(saved);
      return Err(ApiError(500, if Fails(fault, 1) then fault.message else CheckFailed));
    }
    db.Insert(t.value, amount, category, description, now);
    if Fails(fault, 2) {
      db.Restore(saved);
      return Err(ApiError(500, fault.message));
    }
    db.account := Updated(db.account, t.value, amount);
    return Ok(());
  }

  /** One entry of the GET reply. */
  datatype TxnView = TxnView(id: nat, kind: TxnType, amount: real, category: string,
                             description: string, createdAt: Stamp, typeLabel: string)

  /** The `typeLabel` lookup of the GET reply. */
  function TypeLabel(t: TxnType): string
  {
    match t
    case Debit => "Débito"
    case Credit => "Cartão"
    case Income => "Entrada"
    case Salary => "Salário"
  }

  /** The route's labels are the labels (`title`) of the configuration's type table. */
  lemma LabelsMatchConfig(t: TxnType)
    ensures TypeLabel(t) == Config.TransactionTypes(t).title
  {
  }

  /** The category text: the icon the LEFT JOIN finds for the category name
      (none gives ''), a space, then the category name. */
  function CategoryText(icons: map<string, string>, category: string): string
  {
    (if category in icons then icons[category] else "") + " " + category
  }

  function View(icons: map<string, string>, t: Txn): TxnView
  {
    TxnView(t.id, t.kind, t.amount, CategoryText(icons, t.category), t.description,
            t.createdAt, TypeLabel(t.kind))
  }

  /** A view shows its row unchanged apart from the category text, which ends
      with a space and the category name and starts with the category's icon
      when the categories table has one, with nothing in between; the type label is the title of the
      type table. */
  lemma ViewShowsRow(icons: map<string, string>, t: Txn)
    ensures var v := View(icons, t);
      && v.id == t.id && v.kind == t.kind && v.amount == t.amount
      && v.description == t.description && v.createdAt == t.createdAt
      && v.typeLabel == Config.TransactionTypes(t.kind).title
      && |v.category| > |t.category|
      && v.category[|v.category| - |t.category| - 1..] == " " + t.category
      && (t.category !in icons ==> v.category == " " + t.category)
      && (t.category in icons ==> v.category[..|icons[t.category]|] == icons[t.category])
      && (t.category in icons ==> |v.category| == |icons[t.category]| + 1 + |t.category|)
  {
    var icon := if t.category in icons then icons[t.category] else "";
    assert CategoryText(icons, t.category) == icon + (" " + t.category);
  }

  /** Each row shown as its view, in order. */
  function Views(icons: map<string, string>, rows: seq<Txn>): (r: seq<TxnView>)
    ensures |r| == |rows|
    ensures forall i :: 0 <= i < |r| ==> r[i] == View(icons, rows[i])
  {
    seq(|rows|, i requires 0 <= i < |rows| => View(icons, rows[i]))
  }

  /** GET: the 20 most recent rows, newest first, each shown with its
      category icon and type label. `icons` is the categories table (name to icon). */
  function Get(ledger: seq<Txn>, icons: map<string, string>): (r: seq<TxnView>)
    ensures |r| == Min(20, |ledger|)
    ensures forall i :: 0 <= i < |r| ==> r[i] == View(icons, Newest(ledger, 20)[i])
    ensures forall i, j :: 0 <= i < j < |r| ==> NotAfter(r[j].createdAt, r[i].createdAt)
    ensures r != [] ==>
      forall x :: x in multiset(ledger) - multiset(Newest(ledger, 20)) ==>
        NotAfter(x.createdAt, r[|r| - 1].createdAt)
  {
    var rows := Newest(ledger, 20);
    NewestSpec(ledger, 20);
    NewestLastBound(ledger, 20);
    Views(icons, rows)
  }

  /** A value at two positions of a sequence occurs in it at least twice. */
  lemma TwoCopies(s: seq<Txn>, i: nat, j: nat)
    requires i < j < |s| && s[i] == s[j]
    ensures multiset(s)[s[i]] >= 2
  {
    assert s == s[..i] + [s[i]] + s[i + 1..j] + [s[j]] + s[j + 1..];
  }

  /** With increasing ids each row of the ledger occurs in it exactly once. */
  lemma SingleCopy(ledger: seq<Txn>, bound: nat, k: nat)
    requires IdsIncreasing(ledger, bound) && k < |ledger|
    ensures multiset(ledger)[ledger[k]] == 1
  {
    var x := ledger[k];
    var before, after := ledger[..k], ledger[k + 1..];
    assert ledger == before + [x] + after;
    forall m | 0 <= m < |before| ensures before[m] != x {
      assert before[m] == ledger[m];
    }
    forall m | 0 <= m < |after| ensures after[m] != x {
      assert after[m] == ledger[k + 1 + m];
    }
    assert multiset(before)[x] == 0 && multiset(after)[x] == 0;
  }

  /** Since the database hands out increasing ids, the GET lists every row at
      most once: no two entries share an id. */
  lemma GetShowsEachRowOnce(ledger: seq<Txn>, icons: map<string, string>, bound: nat)
    requires IdsIncreasing(ledger, bound)
    ensures var r := Get(ledger, icons);
      forall i, j :: 0 <= i < j < |r| ==> r[i].id != r[j].id
  {
    var r := Get(ledger, icons);
    var rows := Newest(ledger, 20);
    NewestSpec(ledger, 20);
    forall i, j | 0 <= i < j < |r| ensures r[i].id != r[j].id {
      if r[i].id == r[j].id {
        assert rows[i] in multiset(rows) && rows[j] in multiset(rows);
        var ki :| 0 <= ki < |ledger| && ledger[ki] == rows[i];
        var kj :| 0 <= kj < |ledger| && ledger[kj] == rows[j];
        assert ki == kj;
        TwoCopies(rows, i, j);
        SingleCopy(ledger, bound, ki);
        assert false;
      }
    }
  }
}
