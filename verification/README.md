# Temple ledger: a Dafny model of the client-side logic

The temple ledger is a small web application that records a temple's income
and expenses. Rows live in two remote tables, `income` (with a `source`) and
`expenses` (with a `category`). The screens call a hosted backend and hold a
little local state. This project models the pure logic inside those screens
as Dafny functions over immutable datatypes, and proves what that logic
promises:

- **Transaction reconciler** (`Reconcile`, `DateOrder`). When the server-side
  aggregation call returns no data, the two tables are merged on the client:
  income first, then expenses, sorted newest first by a stable sort. The
  history screen keeps every column. The dashboard's recent list reads at
  most 50 rows per table, tags ids with `inc-`/`exp-` and keeps the 8 newest.
  The proofs show that the merge loses and invents no rows and is sorted.
  They show that rows on the same date keep their fetch order, with income
  ahead of expenses, and that tagged ids never collide. `DateOrder` also
  proves that any stable newest-first sort returns the same list, so the
  model does not depend on the engine's sort algorithm. The recent list reads
  only 50 rows per table before choosing the 8 newest, so it is guaranteed
  to be the newest 8 of both tables while neither holds more than 50 rows.
- **Category grouping** (`Dashboard`). The chart data is a fold into
  per-label totals. A falsy label counts as "Uncategorized" and a falsy
  amount as 0. The fold is proved against reference sums: each label occurs
  once, its value is the sum of its rows, and the values add up to the sum
  of all amounts.
- **History screen** (`History`, `LegacyHistory`). Loading, the type filter,
  delete routing and edit start. The two type filters are proved disjoint and
  together to hold every income or expense item, so they split the fallback
  merge without remainder.
  The older copy of the screen reuses the same functions. It differs only in
  showing every item.
- **Transaction editor** (`TransactionEditor`). The mode picks the table and
  the label column. An update is keyed by the edited item's id and carries
  no `user_id`; an insert adds it. The form closes only when no error was
  thrown.
- **Password reset** (`PasswordReset`). The handler is an ordered list of
  effects, and replaying them gives the final message and loading flag. The
  length check comes first, then the equality check, and the password update
  is sent only when both pass.
- **Application shell** (`AppShell`). A state machine over (session, view).
  A left fold over events is proved equal to a reference that reads the
  latest relevant event.

Dates are day numbers (`int`) and amounts are integers (paise). A JavaScript
property that may be `null`, `undefined` or missing is an `Option`, except
for a transaction's `type` and the editor's `mode`. There `None` means the
property is missing or `undefined`. A `null` type or mode is represented as
a string other than "income" or "expense", because the editor's
`mode = 'income'` default applies only to `undefined` and every comparison
treats `null` like such a string. Remote
replies, the user's confirmation, today's date and the session lookup are
parameters.

Behaviour of the code worth knowing:
- The history screen uses the aggregation call's data whenever it is not
  `null`, even when it is an empty array and even when an `error` is
  reported. The dashboard's recent list uses it when it is present and no
  error is reported, again even when it is an empty array.
- An item the aggregation call returns with no `type` property is edited in
  the `income` table, because the editor's mode then takes its default, but
  deleted from `expenses`. An item whose `type` is `null` skips that default
  and is both edited and deleted in `expenses`. Items that carry a type are
  always edited and deleted in the same table.
- An auth-state notification only replaces the session. It does not move
  the view.
- The shell has no loading or password-recovery state, and no client-side
  balance is recomputed.

## Model

| member | source | states |
|---|---|---|
| Ledger.TableFor | src/components/History.jsx:33 | the table is `income` exactly when the type is "income"; any other value, or none, selects `expenses` |
| Ledger.Rows | src/components/History.jsx:19-20 | a reply with `null` data contributes no rows; otherwise its rows as fetched |
| DateOrder.Insert | src/components/History.jsx:21 | inserting into a newest-first list keeps it newest first and adds exactly the new transaction (multiset) |
| DateOrder.InsertOnDate | src/components/History.jsx:21 | the inserted transaction goes ahead of the ones sharing its date (it came earlier in the input); other dates are unchanged |
| DateOrder.SortDesc | src/components/History.jsx:21 | the sort is newest first, a permutation of its input, and keeps the input order on every date (stable) |
| DateOrder.OnDateAppend | src/components/Dashboard.jsx:190-211 | the same-date transactions of a concatenation are the first part's followed by the second's |
| DateOrder.SortedDeterminedByDates | src/components/Dashboard.jsx:211 | two newest-first lists with the same transactions, in the same order, on every date are equal |
| DateOrder.StableSortIsUnique | src/components/Dashboard.jsx:211 | any stable newest-first sort of a list equals `SortDesc` of it |
| DateOrder.SortedConcatTies | src/components/History.jsx:19-21 | after sorting income-then-expense, on every date the income rows come first, each table in fetch order |
| Reconcile.HistoryFallback | src/components/History.jsx:16-22 | the fallback holds \|inc\|+\|exp\| items, is a permutation of income items then expense items, is newest first, and keeps income ahead of expense and fetch order on equal dates |
| Reconcile.HistoryItemsTraceToRows | src/components/History.jsx:19-20 | every fallback item is one fetched row plus its type: an income row with `category` = `source` and every column kept, or an expense row with its own columns and no `source` |
| Reconcile.HistoryFallbackExample | src/components/History.jsx:16-22 | a day-5 donation and a day-6 maintenance expense merge to the expense, then the donation |
| Reconcile.Page | src/components/Dashboard.jsx:187-188 | a `.limit(50)` read returns the first min(50, n) rows in server order |
| Reconcile.RecentFallback | src/components/Dashboard.jsx:186-212 | the recent list has min(8, fetched rows) entries, is a prefix of the sorted merge, and is newest first |
| Reconcile.RecentInMerge | src/components/Dashboard.jsx:211-212 | every recent-list item is one of the merged, tagged items |
| Reconcile.RecentItemsTraceToRows | src/components/Dashboard.jsx:190-210 | every recent-list item is a fetched row tagged: `inc-` + id, type "income", category = `source` for income; `exp-` + id, type "expense", own category for expenses; date and amount kept, no notes |
| Reconcile.NewestRowBeyondPageMissed | src/components/Dashboard.jsx:187-212 | with 51 income rows whose last row in server order is the newest, that row is absent from the recent list |
| Reconcile.TagsNeverCollide | src/components/Dashboard.jsx:194-204 | an `inc-` id never equals an `exp-` id |
| Reconcile.TagInjective | src/components/Dashboard.jsx:194 | equal tagged ids come from equal row ids |
| Reconcile.InsertKeepsDistinctIds | src/components/Dashboard.jsx:211 | inserting a transaction with a new id keeps all ids distinct |
| Reconcile.SortKeepsDistinctIds | src/components/Dashboard.jsx:211 | sorting keeps ids distinct |
| Reconcile.DistinctIdsConcat | src/components/Dashboard.jsx:190-210 | concatenating two id-distinct lists with disjoint ids keeps ids distinct |
| Reconcile.TaggedIncomeDistinct | src/components/Dashboard.jsx:191-200 | tagged income ids are distinct when the income row ids are |
| Reconcile.TaggedExpenseDistinct | src/components/Dashboard.jsx:201-210 | tagged expense ids are distinct when the expense row ids are |
| Reconcile.TaggedPagesDistinct | src/components/Dashboard.jsx:190-210 | an income page and an expense page with unique row ids give tagged items with unique ids |
| Reconcile.RecentIdsDistinct | src/components/Dashboard.jsx:190-212 | when each table's ids are unique, no two recent-list entries share an id |
| Reconcile.RecentIsNewestWhenSmall | src/components/Dashboard.jsx:186-212 | with at most 50 rows per table, the recent list is a prefix of the newest-first merge of both whole tables |
| Dashboard.GroupKey | src/components/Dashboard.jsx:51 | the group key is the label when truthy, "Uncategorized" when it is null, missing or empty; never empty |
| Dashboard.Accumulate | src/components/Dashboard.jsx:52 | adding to the accumulator adds the key, adds the amount to that key's value only, keeps labels distinct, and grows the total by the amount |
| Dashboard.NamesAreIndexed | src/components/Dashboard.jsx:55 | a label is among a chart's names exactly when some entry carries it |
| Dashboard.GroupIntoSums | src/components/Dashboard.jsx:50-54 | the fold adds every row's key, adds each key's row sum to its value, keeps labels distinct and adds all amounts to the total |
| Dashboard.Group | src/components/Dashboard.jsx:61-66 | the chart data has each label once, exactly the rows' keys, each label's value is the sum of its rows' amounts (falsy as 0), and the values sum to all amounts |
| Dashboard.InitialDashboard | src/components/Dashboard.jsx:16-18 | before the first fetch both totals are 0 and both charts have no labels and a zero total |
| Dashboard.FetchAll | src/components/Dashboard.jsx:42-68 | a reply with data replaces its part of the state with a grouping having distinct labels, exactly the rows' keys, each label's value the sum of its rows, and the grand total; a reply without data leaves that part unchanged |
| Dashboard.KeysHold | src/components/Dashboard.jsx:51 | every row's key is among the grouped keys |
| Dashboard.FalsyLabelsShareUncategorized | src/components/Dashboard.jsx:62 | a row with a falsy label makes "Uncategorized" a chart label whose value is that row's amount plus the amounts of every other row keyed "Uncategorized" |
| Dashboard.SumForConcat | src/components/Dashboard.jsx:50-54 | a label's total over two batches of rows is the sum of its totals over each |
| Dashboard.RecentLoad | src/components/Dashboard.jsx:178-213 | RPC data with no error is used as returned, with no fallback and no truncation; otherwise the list is the newest min(8, fetched) of the tagged merge |
| History.InitialHistory | src/components/History.jsx:6-10 | the screen starts with nothing shown, loading, no editor open, the income mode and the "all" filter |
| History.Load | src/components/History.jsx:12-27 | non-null RPC data is used as returned; `null` data gives a newest-first permutation of all fetched rows in which each date's rows are the income rows then the expense rows, each in fetch order |
| History.Loaded | src/components/History.jsx:22-26 | after loading, the items are the loaded list and loading is off; editing, mode and filter are unchanged |
| History.FilterItems | src/components/History.jsx:45-50 | the filtered list is a subsequence; "income"/"expense" keep exactly the items of that type (all of them, in order); any other value keeps everything |
| History.FilterMembership | src/components/History.jsx:45-50 | an item is in the filtered list exactly when it is in the list and the filter keeps it |
| History.CountsAdd | src/components/History.jsx:47-48 | income count plus expense count is the count of items of either type |
| History.FilterPartition | src/components/History.jsx:45-50 | the income and expense filter results are disjoint and together hold, and number, every item whose type is income or expense |
| History.AllKnown | src/components/History.jsx:19-20 | a list of income and expense items only is counted in full |
| History.FallbackFullyPartitioned | src/components/History.jsx:16-50 | the two type filters split a fallback-merged list without remainder |
| History.HandleDelete | src/components/History.jsx:31-37 | a delete is issued iff confirmed, by the item's own id, to `income` iff the type is "income"; reload iff confirmed and no error; alert iff confirmed and an error, with its message |
| History.StartEdit | src/components/History.jsx:39-42 | editing the item, modal mode equal to its type, nothing else changed |
| History.CloseEditor | src/components/History.jsx:137 | closing the editor clears it and reloads the list, keeping the filter |
| History.EditAndDeleteAgree | src/components/History.jsx:31-42 | editing an item that has a type writes to the same table and row id that deleting it targets |
| History.UntypedEditAndDeleteDisagree | src/components/History.jsx:31-42 | an item with no `type` property is edited in `income` (the editor's default mode) but deleted from `expenses` |
| History.OtherTypeEditedAndDeletedInExpenses | src/components/History.jsx:31-42 | an item whose type is present but not "income" (including `null`) is both edited and deleted in `expenses` |
| LegacyHistory.Load | Downloads/temple-ledger/src/components/History.jsx:11-28 | the older screen loads like the current one: RPC data as returned, or all fetched rows newest first with income first on ties |
| LegacyHistory.ShowsWhatAllFilterShows | Downloads/temple-ledger/src/components/History.jsx:63 | the older screen shows every item: what the current screen shows under "all" or an unknown filter, and a superset of any filtered view |
| LegacyHistory.HandleDelete | Downloads/temple-ledger/src/components/History.jsx:32-38 | same routing by type and id, delete only when confirmed, reload only on success, alert on error |
| LegacyHistory.StartEdit | Downloads/temple-ledger/src/components/History.jsx:40-43 | editing the item in the mode named by its type; items and loading unchanged |
| TransactionEditor.ModeOrDefault | src/components/TransactionModal.jsx:5 | a missing mode is "income"; a given one is kept |
| TransactionEditor.ColumnFor | src/components/TransactionModal.jsx:18 | the label goes under `source` exactly when the mode is "income", otherwise under `category` |
| TransactionEditor.TableAndColumnAgree | src/components/TransactionModal.jsx:15-23 | the `income` table always pairs with `source` and `expenses` with `category` |
| TransactionEditor.InitialForm | src/components/TransactionModal.jsx:7-10 | editing starts from the item's date, `category`, amount and notes; adding starts from today and empty label, amount and notes |
| TransactionEditor.AlertText | src/components/TransactionModal.jsx:30 | the alert is the error message, or "Error" when the message is empty |
| TransactionEditor.Submit | src/components/TransactionModal.jsx:13-32 | the write goes to the mode's table and label column (`income`/`source` iff the mode is "income" or missing) with the form's fields; an update is keyed by the edited id with no `user_id`; an insert carries the session user's id; with no session nothing is written and the error is alerted; the form closes iff no alert; a failed write alerts its message, or "Error" |
| TransactionEditor.Finish | src/components/TransactionModal.jsx:24-31 | after a write the form closes iff the store reported no error, and alerts iff it did, with the error's message or "Error" |
| PasswordReset.HandleReset | src/components/ResetPasswordCallback.jsx:14-43 | the handler clears the message and sets loading first and clears loading last; the update is sent iff length >= 6 and the fields match, with the new password; the login switch is scheduled iff the update also succeeds |
| PasswordReset.ApplyConcat | src/components/ResetPasswordCallback.jsx:14-43 | replaying two effect lists in turn is replaying their concatenation |
| PasswordReset.ResetEndsSettled | src/components/ResetPasswordCallback.jsx:19-42 | every submit ends with loading off and the message of the first failed check, the server's error text, or the success text |
| PasswordReset.LengthCheckedFirst | src/components/ResetPasswordCallback.jsx:19-29 | a short password reports the length error even when the fields differ, and sends no update |
| PasswordReset.OnlyLoginIsScheduled | src/components/ResetPasswordCallback.jsx:37-39 | the only scheduled view change is to "login" after 2000 ms |
| AppShell.Init | src/App.jsx:8-9 | the shell starts with no session and the dashboard view |
| AppShell.Render | src/App.jsx:19-35 | no session shows sign-in whatever the view; with a session, the dashboard iff the view is "dashboard", history otherwise |
| AppShell.Step | src/App.jsx:11-29 | session events replace the session and keep the view; navigation sets the view and keeps the session; logout reloads to the initial state |
| AppShell.RunSnoc | src/App.jsx:11-29 | running events then one more is stepping the result once |
| AppShell.RunMatchesLatest | src/App.jsx:8-29 | from start-up the state holds the latest session event's session and the latest navigation's view, each reset by a reload |
| AppShell.LatestViewIsKnown | src/App.jsx:27-28 | the latest view is "dashboard" or "history" |
| AppShell.ViewIsKnown | src/App.jsx:9 | the view is always "dashboard" or "history" |
| AppShell.AuthShownIffNoSession | src/App.jsx:19 | sign-in is shown iff the latest session event since the last reload had no session |
| AppShell.AuthChangeKeepsView | src/App.jsx:13-15 | signing in again by notification returns to the history view the user had chosen |

## Left out

- All calls to the hosted backend are external I/O and are not modelled as calls. This covers auth, table select/insert/update/delete, the aggregation calls, the `ledger_summary` read and the realtime channels. Their replies are parameters, and the `.limit(50)` is an explicit prefix of the table in server order.
- Subscribing to and removing realtime channels, and the reload each change notification triggers, are event wiring. Overlapping reloads are a concurrency issue.
- Rendering, styling, the pie charts, the `COLORS` cycle, and the `toFixed(2)` amounts with a currency sign are presentation.
- `new Date(...)` parsing and the comparator's behaviour on invalid dates are out: dates are valid day numbers.
- Floating-point amounts from `Number(...)`, including non-numeric strings turning into `NaN`, are out: amounts are integers.
- Dashboard.Group: the order of the entries is the order in which labels first appear. The model does not reproduce JavaScript's rule that integer-like property names are listed first in ascending order. It does not model labels that name a property inherited from `Object.prototype` either: for `__proto__`, `constructor`, `toString`, `valueOf`, `hasOwnProperty` and the like, `acc[key] || 0` reads the inherited value (a function or an object), so the chart value becomes a concatenated string or the entry is lost instead of a number.
- The 2-second `setTimeout` is kept as a `ScheduleView("login", 2000)` effect. The timer itself, `confirm`, `alert` and `window.location.reload` are modelled only through their outcomes: a `confirmed` flag, an alert text, and a return to the initial state.
- PasswordReset.HandleReset: the length is the number of Dafny characters. JavaScript's `length` counts UTF-16 code units, so the two differ for characters outside the Basic Multilingual Plane.
- TransactionEditor.Submit: with no session, the text of the thrown `TypeError` is taken as a parameter, because the JavaScript engine chooses it. The browser's `required`-field validation, which runs before the handler, is not modelled. The editor's `loading` flag is not modelled either.
- The dashboard's quick-action buttons only set the editor mode to "income" or "expense", and its `onClose` re-runs `fetchAll`. Both are covered by the functions above and have no members of their own.
- The sign-in screen (src/components/Auth.jsx) only relays the provider's messages. The confirm dialog (src/components/ConfirmModal.jsx) has no logic.
- Dead code has no effect: the unused `query` string in the older history screen and the unused `getUser()` promise in the editor.
- The history screen's `loading` flag is modelled only through `Loaded`. The "Loading..." text shown before the first load finishes is presentation.
