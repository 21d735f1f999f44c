/** The SQL read queries the routes issue against the ledger:
    `ORDER BY created_at DESC LIMIT n` and `COALESCE(SUM(amount), 0)` over the
    rows of some types within a day or a month. */
module Queries {
  import opened Ledger

  function Min(a: int, b: int): int
  {
    if a <= b then a else b
  }

  /** Newest first: no row is later than a row before it. */
  predicate NewestFirst(rows: seq<Txn>)
  {
    forall i, j :: 0 <= i < j < |rows| ==> NotAfter(rows[j].createdAt, rows[i].createdAt)
  }

  /** Putting a row in front of a newest-first sequence keeps it newest first
      when no row of the sequence is later than it. */
  lemma PrependNewest(h: Txn, rows: seq<Txn>)
    requires NewestFirst(rows)
    requires forall y :: y in multiset(rows) ==> NotAfter(y.createdAt, h.createdAt)
    ensures NewestFirst([h] + rows)
  {
    forall i, j | 0 <= i < j < |[h] + rows|
      ensures NotAfter(([h] + rows)[j].createdAt, ([h] + rows)[i].createdAt)
    {
      if i == 0 {
        assert ([h] + rows)[j] == rows[j - 1];
        assert rows[j - 1] in multiset(rows);
      }
    }
  }

  /** Places `x` into a newest-first sequence. */
  function InsertByStamp(x: Txn, rows: seq<Txn>): (r: seq<Txn>)
    requires NewestFirst(rows)
    ensures NewestFirst(r)
    ensures multiset(r) == multiset(rows) + multiset{x}
    ensures |r| == |rows| + 1
  {
    if rows == [] then [x]
    else if NotAfter(rows[0].createdAt, x.createdAt) then
      PrependNewest(x, rows);
      [x] + rows
    else
      var tail := InsertByStamp(x, rows[1..]);
      assert rows == [rows[0]] + rows[1..];
      assert forall y :: y in multiset(rows[1..]) ==> NotAfter(y.createdAt, rows[0].createdAt) by {
        forall y | y in multiset(rows[1..]) ensures NotAfter(y.createdAt, rows[0].createdAt) {
          var j :| 0 <= j < |rows[1..]| && rows[1..][j] == y;
          assert rows[j + 1] == y;
        }
      }
      PrependNewest(rows[0], tail);
      [rows[0]] + tail
  }

  /** The ledger ordered by `created_at`, newest first. */
  function SortByNewest(rows: seq<Txn>): (r: seq<Txn>)
    ensures NewestFirst(r)
    ensures multiset(r) == multiset(rows)
    ensures |r| == |rows|
  {
    if rows == [] then []
    else
      assert rows == [rows[0]] + rows[1..];
      InsertByStamp(rows[0], SortByNewest(rows[1..]))
  }

  /** `ORDER BY created_at DESC LIMIT n`. */
  function Newest(rows: seq<Txn>, n: nat): (r: seq<Txn>)
    ensures |r| == Min(n, |rows|)
  {
    SortByNewest(rows)[..Min(n, |rows|)]
  }

  /** In a newest-first sequence nothing after position k - 1 is later than it. */
  lemma RestNotLater(s: seq<Txn>, k: nat)
    requires NewestFirst(s) && 0 < k <= |s|
    ensures forall x :: x in multiset(s[k..]) ==> NotAfter(x.createdAt, s[k - 1].createdAt)
  {
    forall x | x in multiset(s[k..]) ensures NotAfter(x.createdAt, s[k - 1].createdAt) {
      var j :| 0 <= j < |s[k..]| && s[k..][j] == x;
      assert s[k + j] == x;
    }
  }

  /** What `ORDER BY created_at DESC LIMIT n` returns: min(n, |rows|) rows of
      the ledger, newest first. */
  lemma {:induction false} NewestSpec(rows: seq<Txn>, n: nat)
    ensures var r := Newest(rows, n);
      && |r| == Min(n, |rows|)
      && NewestFirst(r)
      && multiset(r) <= multiset(rows)
  {
    var s := SortByNewest(rows);
    var k := Min(n, |rows|);
    assert s == s[..k] + s[k..];
    assert multiset(s) == multiset(s[..k]) + multiset(s[k..]);
    assert NewestFirst(s[..k]) by {
      forall i, j | 0 <= i < j < k ensures NotAfter(s[..k][j].createdAt, s[..k][i].createdAt) {
        assert s[..k][j] == s[j] && s[..k][i] == s[i];
      }
    }
  }

  /** No row the LIMIT leaves out is later than the last row returned. */
  lemma {:induction false} NewestComplete(rows: seq<Txn>, n: nat)
    requires n > 0 && rows != []
    ensures var r := Newest(rows, n);
      && r != []
      && forall x :: x in multiset(rows) - multiset(r) ==> NotAfter(x.createdAt, r[|r| - 1].createdAt)
  {
    var s := SortByNewest(rows);
    var k := Min(n, |rows|);
    assert s == s[..k] + s[k..];
    assert multiset(rows) - multiset(s[..k]) == multiset(s[k..]);
    RestNotLater(s, k);
    assert s[..k][k - 1] == s[k - 1];
  }

  /** `NewestComplete` for any ledger: when something is returned, nothing
      left out is later than the last row returned. */
  lemma NewestLastBound(rows: seq<Txn>, n: nat)
    ensures var r := Newest(rows, n);
      r != [] ==> forall x :: x in multiset(rows) - multiset(r) ==> NotAfter(x.createdAt, r[|r| - 1].createdAt)
  {
    if Newest(rows, n) != [] {
      NewestComplete(rows, n);
    }
  }

  /** The period a read aggregate restricts itself to. */
  datatype Period = Day(date: Date) | Month(year: int, month: int)

  predicate InPeriod(p: Period, d: Date)
  {
    match p
    case Day(t) => d == t
    case Month(y, m) => d.year == y && d.month == m
  }

  /** What one row adds to a sum: its amount when its type is selected and
      its date falls in the period, otherwise nothing. */
  function Share(x: Txn, types: set<TxnType>, p: Period): real
  {
    if x.kind in types && InPeriod(p, x.createdAt.date) then x.amount else 0.0
  }

  /** `COALESCE(SUM(amount), 0)` over the rows whose type is in `types` and
      whose `created_at` falls in period `p`. */
  function Total(rows: seq<Txn>, types: set<TxnType>, p: Period): real
  {
    if rows == [] then 0.0
    else Total(rows[..|rows| - 1], types, p) + Share(rows[|rows| - 1], types, p)
  }

  /** Appending a row adds its share to the sum. */
  lemma TotalAppend(rows: seq<Txn>, x: Txn, types: set<TxnType>, p: Period)
    ensures Total(rows + [x], types, p) == Total(rows, types, p) + Share(x, types, p)
  {
    assert (rows + [x])[..|rows|] == rows;
  }

  /** Taking any one row out of the ledger takes exactly its share out of the sum. */
  lemma {:induction false} TotalRemoveAt(rows: seq<Txn>, k: nat, types: set<TxnType>, p: Period)
    requires k < |rows|
    ensures Total(rows, types, p) == Total(rows[..k] + rows[k + 1..], types, p) + Share(rows[k], types, p)
  {
    var n := |rows|;
    var init := rows[..n - 1];
    if k == n - 1 {
      assert rows[..k] + rows[k + 1..] == init;
    } else {
      TotalRemoveAt(init, k, types, p);
      var rest := rows[..k] + rows[k + 1..];
      assert rest[..|rest| - 1] == init[..k] + init[k + 1..];
      assert rest[|rest| - 1] == rows[n - 1];
      assert init[k] == rows[k];
      assert Total(rest, types, p) == Total(init[..k] + init[k + 1..], types, p) + Share(rows[n - 1], types, p);
      assert Total(rows, types, p) == Total(init, types, p) + Share(rows[n - 1], types, p);
    }
  }

  /** The rows left after taking out position k are the rows minus that one. */
  lemma MultisetRemoveAt(rows: seq<Txn>, k: nat)
    requires k < |rows|
    ensures multiset(rows[..k] + rows[k + 1..]) == multiset(rows) - multiset{rows[k]}
  {
    assert rows == rows[..k] + [rows[k]] + rows[k + 1..];
  }

  /** SQL's SUM does not depend on the order of the rows: two ledgers holding
      the same rows give the same sums. */
  lemma {:induction false} TotalPermutation(a: seq<Txn>, b: seq<Txn>, types: set<TxnType>, p: Period)
    requires multiset(a) == multiset(b)
    ensures Total(a, types, p) == Total(b, types, p)
    decreases |a|
  {
    if a == [] {
      assert |b| == |multiset(b)|;
    } else {
      var n := |a|;
      var x := a[n - 1];
      MultisetRemoveAt(a, n - 1);
      assert a[..n - 1] + a[n..] == a[..n - 1];
      assert x in multiset(b);
      var k :| 0 <= k < |b| && b[k] == x;
      MultisetRemoveAt(b, k);
      TotalPermutation(a[..n - 1], b[..k] + b[k + 1..], types, p);
      TotalRemoveAt(b, k, types, p);
    }
  }

  /** In particular the sums over the ledger and over its newest-first order agree. */
  lemma TotalIgnoresOrder(rows: seq<Txn>, types: set<TxnType>, p: Period)
    ensures Total(SortByNewest(rows), types, p) == Total(rows, types, p)
  {
    TotalPermutation(SortByNewest(rows), rows, types, p);
  }

  /** A sum over an empty selection is 0, as COALESCE makes it. */
  lemma {:induction false} TotalOfUnselected(rows: seq<Txn>, types: set<TxnType>, p: Period)
    requires forall i :: 0 <= i < |rows| ==> rows[i].kind !in types || !InPeriod(p, rows[i].createdAt.date)
    ensures Total(rows, types, p) == 0.0
  {
    if rows != [] {
      TotalOfUnselected(rows[..|rows| - 1], types, p);
    }
  }

  /** With non-negative amounts every sum is non-negative. */
  lemma {:induction false} TotalNonNegative(rows: seq<Txn>, types: set<TxnType>, p: Period)
    requires forall i :: 0 <= i < |rows| ==> rows[i].amount >= 0.0
    ensures Total(rows, types, p) >= 0.0
  {
    if rows != [] {
      TotalNonNegative(rows[..|rows| - 1], types, p);
    }
  }

  /** With non-negative amounts a day's sum never exceeds its month's sum. */
  lemma {:induction false} DayWithinMonth(rows: seq<Txn>, types: set<TxnType>, today: Date)
    requires forall i :: 0 <= i < |rows| ==> rows[i].amount >= 0.0
    ensures Total(rows, types, Day(today)) <= Total(rows, types, Month(today.year, today.month))
  {
    if rows != [] {
      DayWithinMonth(rows[..|rows| - 1], types, today);
    }
  }

  /** A sum over two disjoint sets of types is the sum of the two sums. */
  lemma {:induction false} TotalSplit(rows: seq<Txn>, a: set<TxnType>, b: set<TxnType>, p: Period)
    requires a !! b
    ensures Total(rows, a + b, p) == Total(rows, a, p) + Total(rows, b, p)
  {
    if rows != [] {
      TotalSplit(rows[..|rows| - 1], a, b, p);
    }
  }

  /** Sums read only type, amount and date: rows that agree on those give the same sums. */
  lemma {:induction false} TotalIgnoresLabels(rows: seq<Txn>, rows': seq<Txn>, types: set<TxnType>, p: Period)
    requires |rows| == |rows'|
    requires forall i :: 0 <= i < |rows| ==>
      rows[i].kind == rows'[i].kind && rows[i].amount == rows'[i].amount && rows[i].createdAt == rows'[i].createdAt
    ensures Total(rows, types, p) == Total(rows', types, p)
  {
    if rows != [] {
      TotalIgnoresLabels(rows[..|rows| - 1], rows'[..|rows'| - 1], types, p);
    }
  }
}
