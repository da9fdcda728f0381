/** The transaction editor: one form for income and expenses, used to add a
    new row or to change an existing one.

    The mode decides everything kind-specific: only the exact mode
    "income" writes to the `income` table and puts the label under
    `source`; every other mode writes to `expenses` under `category`. */
module TransactionEditor {
  import opened Ledger

  /** The mode used when the caller passes none (`mode = 'income'`). */
  const DefaultMode: string := IncomeType

  /** The form fields. An empty text field is `Some("")`; an amount field
      holding no number is `None`. */
  datatype Form = Form(date: int, sourceOrCategory: Option<string>, amount: Option<int>, notes: Option<string>)

  /** The column that receives the label. */
  datatype LabelColumn = SourceColumn | CategoryColumn

  /** The object written to the store. The label sits in exactly one
      column, and `user_id` is present only on inserts. */
  datatype Payload = Payload(
    date: int,
    amount: Option<int>,
    notes: Option<string>,
    userId: Option<string>,
    column: LabelColumn,
    sourceOrCategory: Option<string>)

  /** A write issued to the store. */
  datatype Write =
    | UpdateRow(table: string, key: string, payload: Payload)
    | InsertRow(table: string, payload: Payload)

  /** What a submit leads to: the write issued (if any), whether the form
      closed, and the alert shown (if any). */
  datatype SubmitOutcome = SubmitOutcome(write: Option<Write>, closed: bool, alert: Option<string>)

  /** Looking up the signed-in user's id; with no session the property
      access throws, and the thrown error's message is kept. */
  datatype UserLookup = UserId(id: string) | LookupError(message: string)

  /** The mode in effect: an absent mode (`undefined`) takes the default. */
  function ModeOrDefault(mode: Option<string>): (m: string)
    ensures mode.None? ==> m == IncomeType
    ensures mode.Some? ==> m == mode.value
  {
    if mode.Some? then mode.value else DefaultMode
  }

  function ColumnFor(mode: string): (c: LabelColumn)
    ensures c == SourceColumn <==> mode == IncomeType
  {
    if mode == IncomeType then SourceColumn else CategoryColumn
  }

  /** The kind-specific choices agree: the `income` table always goes with
      the `source` column and `expenses` with `category`. */
  lemma TableAndColumnAgree(mode: string)
    ensures TableFor(Some(mode)) == IncomeTable <==> ColumnFor(mode) == SourceColumn
    ensures TableFor(Some(mode)) == ExpensesTable <==> ColumnFor(mode) == CategoryColumn
  {
  }

  /** The fields the form opens with: an edited item's values (its label
      read from `category`), or for a new row today's date and empty
      label, amount and notes. */
  function InitialForm(editItem: Option<Tx>, today: int): (f: Form)
    ensures editItem.Some? ==>
              f == Form(editItem.value.date, editItem.value.category, editItem.value.amount, editItem.value.notes)
    ensures editItem.None? ==> f == Form(today, Some(""), None, Some(""))
  {
    match editItem
    case Some(it) => Form(it.date, it.category, it.amount, it.notes)
    case None => Form(today, Some(""), None, Some(""))
  }

  /** `alert(err.message || 'Error')`. */
  function AlertText(message: string): (text: string)
    ensures text != ""
    ensures message != "" ==> text == message
    ensures message == "" ==> text == "Error"
  {
    if message == "" then "Error" else message
  }

  /** `handleSubmit`. Editing updates the edited row by its id with date,
      amount, notes and the label column; adding looks up the user id and
      inserts the same fields plus `user_id`. The form closes only when no
      error was thrown; otherwise it stays open with an alert. A missing
      mode is the income mode. */
  function Submit(mode: Option<string>, editItem: Option<Tx>, form: Form, user: UserLookup, writeError: Option<string>): (r: SubmitOutcome)
    ensures r.closed <==> r.alert.None?
    ensures r.write.Some? ==>
              && (r.write.value.table == IncomeTable <==> mode.None? || mode == Some(IncomeType))
              && (r.write.value.table == IncomeTable || r.write.value.table == ExpensesTable)
              && (r.write.value.payload.column == SourceColumn <==> mode.None? || mode == Some(IncomeType))
              && r.write.value.payload.sourceOrCategory == form.sourceOrCategory
              && r.write.value.payload.date == form.date
              && r.write.value.payload.amount == form.amount
              && r.write.value.payload.notes == form.notes
    ensures editItem.Some? ==>
              && r.write.Some? && r.write.value.UpdateRow?
              && r.write.value.key == editItem.value.id
              && r.write.value.payload.userId.None?
    ensures editItem.None? && user.UserId? ==>
              && r.write.Some? && r.write.value.InsertRow?
              && r.write.value.payload.userId == Some(user.id)
    ensures editItem.None? && user.LookupError? ==>
              && r.write.None?
              && r.alert == Some(AlertText(user.message))
    ensures r.write.Some? ==> (r.closed <==> writeError.None?)
    ensures r.write.Some? && writeError.Some? ==> r.alert == Some(AlertText(writeError.value))
  {
    var m := ModeOrDefault(mode);
    var table := TableFor(Some(m));
    var column := ColumnFor(m);
    match editItem
    case Some(it) =>
      var write := UpdateRow(table, it.id, Payload(form.date, form.amount, form.notes, None, column, form.sourceOrCategory));
      Finish(write, writeError)
    case None =>
      match user
      case LookupError(message) => SubmitOutcome(None, false, Some(AlertText(message)))
      case UserId(uid) =>
        var write := InsertRow(table, Payload(form.date, form.amount, form.notes, Some(uid), column, form.sourceOrCategory));
        Finish(write, writeError)
  }

  /** After the write: close on success, alert and stay open on error. */
  function Finish(write: Write, writeError: Option<string>): (r: SubmitOutcome)
    ensures r.write == Some(write)
    ensures r.closed <==> writeError.None?
    ensures r.alert.Some? <==> writeError.Some?
    ensures writeError.Some? ==> r.alert == Some(AlertText(writeError.value))
  {
    match writeError
    case None => SubmitOutcome(Some(write), true, None)
    case Some(message) => SubmitOutcome(Some(write), false, Some(AlertText(message)))
  }
}
