/** The older history screen kept under `Downloads/temple-ledger`. Its
    `load`, `handleDelete` and `startEdit` are the same code as the current
    screen's, so they are modelled by the same functions; what differs is
    that it has no filter and shows every loaded item. */
module LegacyHistory {
  import opened Ledger
  import opened DateOrder
  import opened Reconcile
  import History

  /** The older screen's state: no filter value. */
  datatype LegacyState = LegacyState(items: seq<Tx>, loading: bool, editing: Option<Tx>, modalMode: Option<string>)

  /** `load`: `null` data falls back to the newest-first two-table merge,
      any other data is shown as returned. */
  function Load(rpc: RpcReply, inc: Option<seq<IncomeRow>>, exp: Option<seq<ExpenseRow>>): (r: seq<Tx>)
    ensures rpc.data.Some? ==> r == rpc.data.value
    ensures rpc.data.None? ==>
              && |r| == |Rows(inc)| + |Rows(exp)|
              && SortedDesc(r)
              && (forall d :: OnDate(r, d) ==
                    OnDate(Map(HistoryIncomeItem, Rows(inc)), d) + OnDate(Map(HistoryExpenseItem, Rows(exp)), d))
  {
    History.Load(rpc, inc, exp)
  }

  /** The rows the older screen shows: all of them. */
  function Visible(st: LegacyState): seq<Tx> {
    st.items
  }

  /** With no filter, the older screen shows what the current screen shows
      under the "all" filter or any unrecognised one, and never less than
      under "income" or "expense". */
  lemma ShowsWhatAllFilterShows(items: seq<Tx>, loading: bool, editing: Option<Tx>, mode: Option<string>, filter: string)
    ensures filter != IncomeType && filter != ExpenseType ==>
              Visible(LegacyState(items, loading, editing, mode))
              == History.Visible(History.HistoryState(items, loading, editing, mode, filter))
    ensures History.IsSubsequence(History.Visible(History.HistoryState(items, loading, editing, mode, filter)),
                                  Visible(LegacyState(items, loading, editing, mode)))
  {
  }

  /** `handleDelete`, unchanged from the current screen: confirm first,
      route by type, reload only on success. */
  function HandleDelete(it: Tx, confirmed: bool, deleteError: Option<string>): (r: History.DeleteOutcome)
    ensures r.request.Some? <==> confirmed
    ensures r.request.Some? ==> r.request.value == History.DeleteRequest(TableFor(it.txType), it.id)
    ensures r.reload <==> confirmed && deleteError.None?
    ensures r.alert == (if confirmed then deleteError else None)
  {
    History.HandleDelete(it, confirmed, deleteError)
  }

  /** `startEdit`: editor opened on the item in the mode named by its type. */
  function StartEdit(st: LegacyState, it: Tx): (r: LegacyState)
    ensures r.editing == Some(it) && r.modalMode == it.txType
    ensures r.items == st.items && r.loading == st.loading
  {
    st.(editing := Some(it), modalMode := it.txType)
  }
}
