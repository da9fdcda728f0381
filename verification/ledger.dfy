/** The data model shared by every screen of the temple ledger: the rows of
    the `income` and `expenses` tables, the unified transaction shape the
    screens display, and the mapping from a transaction kind to the table
    that stores it.

    Dates are day numbers and amounts are integers (paise). A JavaScript
    property that may be `null`, `undefined` or missing is an `Option`. */
module Ledger {

  datatype Option<+T> = None | Some(value: T)

  /** A row of the `income` table; `source` is where the money came from. */
  datatype IncomeRow = IncomeRow(
    id: string,
    date: int,
    source: Option<string>,
    amount: Option<int>,
    notes: Option<string>)

  /** A row of the `expenses` table; `category` is what the money was spent on. */
  datatype ExpenseRow = ExpenseRow(
    id: string,
    date: int,
    category: Option<string>,
    amount: Option<int>,
    notes: Option<string>)

  /** A transaction as the screens hold it. `txType` is `None` when the
      item has no `type` property: the server-side aggregation may return
      any value there, while the client-side merge only ever writes
      "income" or "expense". An explicit `null` type behaves everywhere
      like a string other than those two and is represented as one.
      `source` is present only on income items built by the history
      screen, which keep every column of their row. */
  datatype Tx = Tx(
    id: string,
    date: int,
    txType: Option<string>,
    category: Option<string>,
    amount: Option<int>,
    notes: Option<string>,
    source: Option<string>)

  const IncomeType: string := "income"
  const ExpenseType: string := "expense"
  const IncomeTable: string := "income"
  const ExpensesTable: string := "expenses"

  /** JavaScript truthiness of an optional string: `null`, `undefined` and
      the empty string are falsy. */
  predicate Truthy(s: Option<string>) {
    s.Some? && s.value != ""
  }

  /** The rows of a query reply; a reply whose `data` is `null` contributes
      nothing (`if (inc.data) merged.push(...)`). */
  function Rows<T>(data: Option<seq<T>>): (r: seq<T>)
    ensures data.None? ==> r == []
    ensures data.Some? ==> r == data.value
  {
    match data
    case None => []
    case Some(rows) => rows
  }

  /** The table a transaction kind (or an editor mode) is stored in
      (`kind === 'income' ? 'income' : 'expenses'`): only the exact string
      "income" selects the `income` table; every other value, and a
      missing one, selects `expenses`. */
  function TableFor(kind: Option<string>): (table: string)
    ensures table == IncomeTable || table == ExpensesTable
    ensures table == IncomeTable <==> kind == Some(IncomeType)
  {
    if kind == Some(IncomeType) then IncomeTable else ExpensesTable
  }

  /** No two elements of the list share a key. */
  predicate UniqueBy<T>(s: seq<T>, key: T -> string) {
    forall i, j :: 0 <= i < j < |s| ==> key(s[i]) != key(s[j])
  }

  /** No two transactions of the list share an id. */
  predicate DistinctIds(s: seq<Tx>) {
    UniqueBy(s, (t: Tx) => t.id)
  }

  function Min(a: int, b: int): int {
    if a <= b then a else b
  }
}
