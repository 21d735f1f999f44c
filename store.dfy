/** The database handle every route obtains from `getDb()`: the account row of
    user 1 (absent until provisioned) and the append-only transaction ledger,
    with SQLite's autoincrement counter for transaction ids. */
module Store {
  import opened Ledger

  /** The whole persisted state, as BEGIN captures it and ROLLBACK restores it. */
  datatype Snapshot = Snapshot(account: Option<Account>, ledger: seq<Txn>, nextId: nat)

  /** Ids increase along the ledger and stay below the autoincrement counter. */
  predicate IdsIncreasing(rows: seq<Txn>, bound: nat)
  {
    && (forall i, j :: 0 <= i < j < |rows| ==> rows[i].id < rows[j].id)
    && (forall i :: 0 <= i < |rows| ==> rows[i].id < bound)
  }

  class Database {
    var account: Option<Account>
    var ledger: seq<Txn>
    var nextId: nat

    ghost predicate Valid()
      reads this
    {
      IdsIncreasing(ledger, nextId)
    }

    function State(): Snapshot
      reads this
    {
      Snapshot(account, ledger, nextId)
    }

    constructor (initial: Option<Account>)
      ensures Valid()
      ensures account == initial && ledger == [] && nextId == 1
    {
      account := initial;
      ledger := [];
      nextId := 1;
    }

    /** `INSERT INTO transactions ...`: appends one row carrying the next id. */
    method Insert(kind: TxnType, amount: real, category: string, description: string, at: Stamp)
      requires Valid()
      modifies this
      ensures Valid()
      ensures ledger == old(ledger) + [Txn(old(nextId), kind, amount, category, description, at)]
      ensures account == old(account) && nextId == old(nextId) + 1
    {
      ledger := ledger + [Txn(nextId, kind, amount, category, description, at)];
      nextId := nextId + 1;
    }

    /** ROLLBACK: every write since the snapshot was taken is undone. */
    method Restore(s: Snapshot)
      requires IdsIncreasing(s.ledger, s.nextId)
      modifies this
      ensures Valid() && State() == s
    {
      account, ledger, nextId := s.account, s.ledger, s.nextId;
    }
  }
}
