/** The application's constant tables and input validators (lib/config.js). */
module Config {
  import opened Ledger

  /** Whether a transaction type takes money away from the user or brings it in. */
  datatype Impact = Negative | Positive

  /** One entry of the `transactionTypes` table. Its `label` field is named
      `title` here, since `label` is a reserved word of Dafny. */
  datatype TypeInfo = TypeInfo(id: string, icon: string, title: string, desc: string,
                               color: string, impact: Impact)

  /** The `transactionTypes` table, keyed by transaction type. */
  function TransactionTypes(t: TxnType): TypeInfo
  {
    match t
    case Debit => TypeInfo("debit", "💸", "Débito", "Sai do saldo", "red", Negative)
    case Credit => TypeInfo("credit", "💳", "Cartão", "Fatura cartão", "orange", Negative)
    case Income => TypeInfo("income", "💰", "Entrada", "Vendas, extras", "green", Positive)
    case Salary => TypeInfo("salary", "🏦", "Salário", "Recebimento", "blue", Positive)
  }

  /** Every entry's id is its own key, so the id parses back to the entry's type. */
  lemma TableIdsAreKeys(t: TxnType)
    ensures TransactionTypes(t).id == TypeName(t)
    ensures ParseType(TransactionTypes(t).id) == Some(t)
  {
  }

  /** The table's negative entries are exactly the types the read aggregates
      count as expenses; the positive ones are exactly the income types. */
  lemma ImpactIsExpense(t: TxnType)
    ensures TransactionTypes(t).impact == Negative <==> IsExpense(t)
    ensures TransactionTypes(t).impact == Positive <==> t in {Income, Salary}
  {
  }

  /** `validators.amount`: the parsed value (None when `parseFloat` gives NaN)
      must be a number strictly above zero. */
  predicate ValidAmount(parsed: Option<real>)
  {
    match parsed
    case None => false
    case Some(x) => x > 0.0
  }

  /** `validators.category`: present (neither null nor undefined) and non-empty. */
  predicate ValidCategory(value: Option<string>)
  {
    value.Some? && |value.value| > 0
  }

  /** `validators.description`: at most 100 characters; reading the length of
      a missing value throws, which the result `None` stands for. */
  function ValidDescription(value: Option<string>): (r: Option<bool>)
    ensures r.None? <==> value.None?
    ensures r == Some(true) <==> value.Some? && |value.value| <= 100
  {
    match value
    case None => None
    case Some(s) => Some(|s| <= 100)
  }

  /** `validators.password`: present and at least 6 characters long. */
  predicate ValidPassword(value: Option<string>)
  {
    value.Some? && |value.value| >= 6
  }

  /** `validators.username`: present and between 3 and 20 characters long. */
  predicate ValidUsername(value: Option<string>)
  {
    value.Some? && 3 <= |value.value| <= 20
  }

  /** What each validator accepts at its boundary: an amount just above zero
      but not zero, a description of 100 characters but not 101, a password of
      6 characters but not 5, usernames of 3 and 20 characters but not 2 or 21. */
  lemma ValidatorBoundaries()
    ensures ValidAmount(Some(0.01)) && !ValidAmount(Some(0.0)) && !ValidAmount(None)
    ensures ValidCategory(Some("x")) && !ValidCategory(Some("")) && !ValidCategory(None)
    ensures ValidDescription(Some(seq(100, _ => 'a'))) == Some(true)
    ensures ValidDescription(Some(seq(101, _ => 'a'))) == Some(false)
    ensures ValidPassword(Some("abcdef")) && !ValidPassword(Some("abcde"))
    ensures ValidUsername(Some("abc")) && ValidUsername(Some(seq(20, _ => 'a')))
    ensures !ValidUsername(Some("ab")) && !ValidUsername(Some(seq(21, _ => 'a')))
  {
  }

  /** The validators are thresholds: a larger amount stays valid, appending
      text keeps a category or password valid, cutting text keeps a
      description valid, and every valid username is a valid category. */
  lemma ValidatorsMonotone(x: real, y: real, s: string, t: string)
    ensures ValidAmount(Some(x)) && x <= y ==> ValidAmount(Some(y))
    ensures ValidCategory(Some(s)) ==> ValidCategory(Some(s + t))
    ensures ValidPassword(Some(s)) ==> ValidPassword(Some(s + t))
    ensures ValidDescription(Some(s + t)) == Some(true) ==> ValidDescription(Some(s)) == Some(true)
    ensures ValidUsername(Some(s)) ==> ValidCategory(Some(s))
  {
  }
}
