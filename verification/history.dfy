/** The history screen: every transaction, a type filter, and per-row edit
    and delete actions. */
module History {
  import opened Ledger
  import opened DateOrder
  import opened Reconcile
  import TransactionEditor

  /** The screen's local state: the loaded list, the loading flag, the
      item being edited (if any), the editor's mode (`None` when it was
      set from an item with no type) and the filter value. */
  datatype HistoryState = HistoryState(
    items: seq<Tx>,
    loading: bool,
    editing: Option<Tx>,
    modalMode: Option<string>,
    filter: string)

  const AllFilter: string := "all"

  /** The state on first render: nothing shown yet, loading, no editor
      open, the income mode and the "all" filter. */
  function InitialHistory(): (r: HistoryState)
    ensures Visible(r) == []
    ensures r.loading && r.editing.None?
    ensures r.modalMode == Some(IncomeType) && r.filter == AllFilter
  {
    HistoryState([], true, None, Some(IncomeType), AllFilter)
  }

  // ---------------------------------------------------------------------
  // Loading.

  /** `load`: the aggregation call's data is used as returned whenever it
      is not `null`, even when an error is reported; otherwise the two
      tables are merged newest first, rows of one date keeping fetch order
      with income ahead of expenses. */
  function Load(rpc: RpcReply, inc: Option<seq<IncomeRow>>, exp: Option<seq<ExpenseRow>>): (r: seq<Tx>)
    ensures rpc.data.Some? ==> r == rpc.data.value
    ensures rpc.data.None? ==>
              && |r| == |Rows(inc)| + |Rows(exp)|
              && SortedDesc(r)
              && multiset(r) == multiset(HistoryConcat(inc, exp))
              && (forall d :: OnDate(r, d) ==
                    OnDate(Map(HistoryIncomeItem, Rows(inc)), d) + OnDate(Map(HistoryExpenseItem, Rows(exp)), d))
  {
    if rpc.data.None? then HistoryFallback(inc, exp) else rpc.data.value
  }

  /** The state once `load` has finished: new items, loading cleared, the
      rest untouched. */
  function Loaded(st: HistoryState, rpc: RpcReply, inc: Option<seq<IncomeRow>>, exp: Option<seq<ExpenseRow>>): (r: HistoryState)
    ensures r.items == Load(rpc, inc, exp) && !r.loading
    ensures r.editing == st.editing && r.modalMode == st.modalMode && r.filter == st.filter
  {
    st.(items := Load(rpc, inc, exp), loading := false)
  }

  // ---------------------------------------------------------------------
  // Filtering.

  /** The predicate of `items.filter(...)`: "income" and "expense" keep the
      items of that type, "all" and every other value keep everything. */
  predicate Keep(filter: string, t: Tx) {
    if filter == AllFilter then true
    else if filter == IncomeType then t.txType == Some(IncomeType)
    else if filter == ExpenseType then t.txType == Some(ExpenseType)
    else true
  }

  /** `a` is `b` with some elements left out, the rest in order. */
  predicate IsSubsequence(a: seq<Tx>, b: seq<Tx>)
    decreases |b|
  {
    a == [] || (b != [] && ((a[0] == b[0] && IsSubsequence(a[1..], b[1..])) || IsSubsequence(a, b[1..])))
  }

  /** How many items have type `kind`. */
  function CountType(items: seq<Tx>, kind: string): nat {
    if items == [] then 0
    else (if items[0].txType == Some(kind) then 1 else 0) + CountType(items[1..], kind)
  }

  /** `filteredItems`: the subsequence of the items the filter keeps. For
      "income" or "expense" that is every item of that type and no other;
      any other filter value leaves the list as it is. */
  function FilterItems(items: seq<Tx>, filter: string): (r: seq<Tx>)
    ensures IsSubsequence(r, items)
    ensures filter != IncomeType && filter != ExpenseType ==> r == items
    ensures filter == IncomeType || filter == ExpenseType ==>
              && (forall i :: 0 <= i < |r| ==> r[i].txType == Some(filter))
              && |r| == CountType(items, filter)
  {
    if items == [] then []
    else
      var rest := FilterItems(items[1..], filter);
      if Keep(filter, items[0]) then
        assert ([items[0]] + rest)[1..] == rest;
        [items[0]] + rest
      else
        assert IsSubsequence(rest, items) by {
          if rest != [] {
            assert IsSubsequence(rest, items[1..]);
          }
        }
        rest
  }

  /** Every item of a list is kept by exactly the filters that match it. */
  lemma {:induction false} FilterMembership(items: seq<Tx>, filter: string, t: Tx)
    ensures t in FilterItems(items, filter) <==> t in items && Keep(filter, t)
    decreases |items|
  {
    if items != [] {
      FilterMembership(items[1..], filter, t);
      assert items == [items[0]] + items[1..];
    }
  }

  /** Income and expense types are counted apart: together they number
      every item whose type is one of the two. */
  function CountKnown(items: seq<Tx>): nat {
    if items == [] then 0
    else (if items[0].txType == Some(IncomeType) || items[0].txType == Some(ExpenseType) then 1 else 0) + CountKnown(items[1..])
  }

  lemma {:induction false} CountsAdd(items: seq<Tx>)
    ensures CountType(items, IncomeType) + CountType(items, ExpenseType) == CountKnown(items)
    decreases |items|
  {
    if items != [] {
      CountsAdd(items[1..]);
    }
  }

  /** The "income" and "expense" filters are disjoint and together hold
      every item whose type is income or expense; an item with another type
      or none is in neither. For a list built by the fallback merge they
      hold all of it (`FallbackFullyPartitioned`). */
  lemma FilterPartition(items: seq<Tx>)
    ensures forall t :: t in FilterItems(items, IncomeType) ==> t !in FilterItems(items, ExpenseType)
    ensures |FilterItems(items, IncomeType)| + |FilterItems(items, ExpenseType)| == CountKnown(items)
    ensures forall t :: t in items && (t.txType == Some(IncomeType) || t.txType == Some(ExpenseType)) ==>
              t in FilterItems(items, IncomeType) || t in FilterItems(items, ExpenseType)
  {
    forall t | t in FilterItems(items, IncomeType) ensures t !in FilterItems(items, ExpenseType) {
      FilterMembership(items, IncomeType, t);
      FilterMembership(items, ExpenseType, t);
    }
    forall t | t in items && (t.txType == Some(IncomeType) || t.txType == Some(ExpenseType))
      ensures t in FilterItems(items, IncomeType) || t in FilterItems(items, ExpenseType)
    {
      FilterMembership(items, IncomeType, t);
      FilterMembership(items, ExpenseType, t);
    }
    CountsAdd(items);
  }

  /** Every item of the fallback merge is an income or an expense, so the
      two type filters split it without remainder. */
  lemma FallbackFullyPartitioned(inc: Option<seq<IncomeRow>>, exp: Option<seq<ExpenseRow>>)
    ensures |FilterItems(HistoryFallback(inc, exp), IncomeType)| + |FilterItems(HistoryFallback(inc, exp), ExpenseType)|
            == |Rows(inc)| + |Rows(exp)|
  {
    var items := HistoryFallback(inc, exp);
    forall t | t in items ensures t.txType == Some(IncomeType) || t.txType == Some(ExpenseType) {
      HistoryItemsTraceToRows(inc, exp, t);
    }
    AllKnown(items);
    FilterPartition(items);
  }

  lemma {:induction false} AllKnown(items: seq<Tx>)
    requires forall t :: t in items ==> t.txType == Some(IncomeType) || t.txType == Some(ExpenseType)
    ensures CountKnown(items) == |items|
    decreases |items|
  {
    if items != [] {
      assert items[0] in items;
      assert forall t :: t in items[1..] ==> t in items;
      AllKnown(items[1..]);
    }
  }

  /** The rows the screen shows. */
  function Visible(st: HistoryState): seq<Tx> {
    FilterItems(st.items, st.filter)
  }

  // ---------------------------------------------------------------------
  // Delete and edit.

  /** A delete issued to the store: the table and the item's id as shown. */
  datatype DeleteRequest = DeleteRequest(table: string, id: string)

  /** What `handleDelete` does: the delete it issues (if any), the alert it
      raises (if any), and whether it reloads the list. */
  datatype DeleteOutcome = DeleteOutcome(request: Option<DeleteRequest>, alert: Option<string>, reload: bool)

  /** `handleDelete`: nothing happens unless the user confirms; then the
      item is deleted by its id from the table its type selects, and the
      list is reloaded on success or the error message alerted on failure. */
  function HandleDelete(it: Tx, confirmed: bool, deleteError: Option<string>): (r: DeleteOutcome)
    ensures r.request.Some? <==> confirmed
    ensures r.request.Some? ==>
              && r.request.value.id == it.id
              && (r.request.value.table == IncomeTable <==> it.txType == Some(IncomeType))
              && (r.request.value.table == IncomeTable || r.request.value.table == ExpensesTable)
    ensures r.reload <==> confirmed && deleteError.None?
    ensures r.alert.Some? <==> confirmed && deleteError.Some?
    ensures r.alert.Some? ==> r.alert == deleteError
  {
    if !confirmed then DeleteOutcome(None, None, false)
    else
      var request := Some(DeleteRequest(TableFor(it.txType), it.id));
      match deleteError
      case Some(message) => DeleteOutcome(request, Some(message), false)
      case None => DeleteOutcome(request, None, true)
  }

  /** `startEdit`: opens the editor on the item, in the mode named by its
      type; nothing else changes. */
  function StartEdit(st: HistoryState, it: Tx): (r: HistoryState)
    ensures r.editing == Some(it)
    ensures r.modalMode == it.txType
    ensures r.items == st.items && r.loading == st.loading && r.filter == st.filter
  {
    st.(editing := Some(it), modalMode := it.txType)
  }

  /** The editor's `onClose`: the editor is dismissed and the list reloaded. */
  function CloseEditor(st: HistoryState, rpc: RpcReply, inc: Option<seq<IncomeRow>>, exp: Option<seq<ExpenseRow>>): (r: HistoryState)
    ensures r.editing.None?
    ensures r.items == Load(rpc, inc, exp)
    ensures r.filter == st.filter
  {
    Loaded(st.(editing := None), rpc, inc, exp)
  }

  /** Editing a typed item from this screen writes to the same table and
      row that deleting it would: `startEdit` hands the item's type to the
      editor as its mode, and both route by that string. */
  lemma EditAndDeleteAgree(st: HistoryState, it: Tx, form: TransactionEditor.Form,
                           user: TransactionEditor.UserLookup, writeError: Option<string>)
    requires it.txType.Some?
    ensures var w := TransactionEditor.Submit(StartEdit(st, it).modalMode, Some(it), form, user, writeError).write;
            var d := HandleDelete(it, true, None).request;
            && w.Some? && d.Some?
            && w.value.table == d.value.table
            && w.value.key == d.value.id
  {
  }

  /** An item with no type is routed apart: `startEdit` leaves the editor
      without a mode, so it takes its default and edits the row in
      `income`, while a delete of the same item goes to `expenses`. */
  lemma UntypedEditAndDeleteDisagree(st: HistoryState, it: Tx, form: TransactionEditor.Form,
                                     user: TransactionEditor.UserLookup, writeError: Option<string>)
    requires it.txType.None?
    ensures var w := TransactionEditor.Submit(StartEdit(st, it).modalMode, Some(it), form, user, writeError).write;
            var d := HandleDelete(it, true, None).request;
            && w.Some? && w.value.table == IncomeTable
            && d.Some? && d.value.table == ExpensesTable
  {
  }

  /** An item whose type is present but not "income" — "expense", any
      other text, or `null`, which skips the editor's default — is both
      edited and deleted in `expenses`. */
  lemma OtherTypeEditedAndDeletedInExpenses(st: HistoryState, it: Tx, form: TransactionEditor.Form,
                                            user: TransactionEditor.UserLookup, writeError: Option<string>)
    requires it.txType.Some? && it.txType != Some(IncomeType)
    ensures var w := TransactionEditor.Submit(StartEdit(st, it).modalMode, Some(it), form, user, writeError).write;
            var d := HandleDelete(it, true, None).request;
            && w.Some? && w.value.table == ExpensesTable
            && d.Some? && d.value.table == ExpensesTable
  {
  }
}
