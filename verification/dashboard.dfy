/** The dashboard: per-label totals for the two pie charts, the summary
    totals, and the recent-transactions list.

    `fetchAll` folds the income rows by `source` and the expense rows by
    `category` into an object from label to total: a falsy label becomes
    "Uncategorized" and a falsy amount counts as 0. The chart data is the
    object's entries, kept here as an association list in the order labels
    first appear. */
module Dashboard {
  import opened Ledger
  import opened DateOrder
  import opened Reconcile

  const Uncategorized: string := "Uncategorized"

  /** One `{ name, value }` entry of a pie chart. */
  datatype Slice = Slice(name: string, value: int)

  /** The two columns a grouping fold reads from a row. */
  datatype Labeled = Labeled(name: Option<string>, amount: Option<int>)

  /** The single row of the server-side `ledger_summary` view. */
  datatype Summary = Summary(totalIncome: int, totalExpenses: int, balance: int)

  datatype DashboardState = DashboardState(summary: Summary, incomeData: seq<Slice>, expenseData: seq<Slice>)

  /** `cur.source || "Uncategorized"` (resp. `cur.category || ...`). */
  function GroupKey(text: Option<string>): (key: string)
    ensures Truthy(text) ==> key == text.value
    ensures !Truthy(text) ==> key == Uncategorized
    ensures key != ""
  {
    if Truthy(text) then text.value else Uncategorized
  }

  /** `Number(cur.amount || 0)`: a missing amount, like a zero one, adds 0. */
  function AmountOrZero(amount: Option<int>): int {
    if amount.Some? then amount.value else 0
  }

  // ---------------------------------------------------------------------
  // Reference definitions the fold is checked against.

  /** The labels of a chart, as a set. */
  function Names(slices: seq<Slice>): set<string> {
    if slices == [] then {} else {slices[0].name} + Names(slices[1..])
  }

  /** Each label occurs at most once. */
  predicate DistinctNames(slices: seq<Slice>) {
    forall i, j :: 0 <= i < j < |slices| ==> slices[i].name != slices[j].name
  }

  /** `acc[key] || 0`: the value recorded for `key`, or 0 when absent. */
  function ValueOf(slices: seq<Slice>, key: string): int {
    if slices == [] then 0
    else if slices[0].name == key then slices[0].value
    else ValueOf(slices[1..], key)
  }

  /** The sum of all values of a chart. */
  function Total(slices: seq<Slice>): int {
    if slices == [] then 0 else slices[0].value + Total(slices[1..])
  }

  /** The group keys of some rows, as a set. */
  function Keys(rows: seq<Labeled>): set<string> {
    if rows == [] then {} else {GroupKey(rows[0].name)} + Keys(rows[1..])
  }

  /** The total amount of the rows whose group key is `key`. */
  function SumFor(rows: seq<Labeled>, key: string): int {
    if rows == [] then 0
    else (if GroupKey(rows[0].name) == key then AmountOrZero(rows[0].amount) else 0) + SumFor(rows[1..], key)
  }

  /** The total amount of all rows. */
  function SumAll(rows: seq<Labeled>): int {
    if rows == [] then 0 else AmountOrZero(rows[0].amount) + SumAll(rows[1..])
  }

  // ---------------------------------------------------------------------
  // The fold.

  /** `acc[key] = (acc[key] || 0) + amount`: adds to an existing entry in
      place or appends a new one. */
  function Accumulate(acc: seq<Slice>, key: string, amount: int): (r: seq<Slice>)
    ensures Names(r) == Names(acc) + {key}
    ensures DistinctNames(acc) ==> DistinctNames(r)
    ensures forall k :: ValueOf(r, k) == ValueOf(acc, k) + (if k == key then amount else 0)
    ensures DistinctNames(acc) ==> Total(r) == Total(acc) + amount
  {
    if acc == [] then
      [Slice(key, amount)]
    else if acc[0].name == key then
      var r := [Slice(key, acc[0].value + amount)] + acc[1..];
      assert r[1..] == acc[1..];
      assert DistinctNames(acc) ==> key !in Names(acc[1..]) by {
        if DistinctNames(acc) {
          NamesAreIndexed(acc[1..], key);
          forall i | 0 <= i < |acc[1..]| ensures acc[1..][i].name != key {
            assert acc[1..][i] == acc[i + 1];
          }
        }
      }
      forall k ensures ValueOf(r, k) == ValueOf(acc, k) + (if k == key then amount else 0) {
        if k != key && DistinctNames(acc) {
          assert ValueOf(r, k) == ValueOf(acc[1..], k);
        }
      }
      assert DistinctNames(acc) ==> DistinctNames(r) by {
        if DistinctNames(acc) {
          forall i, j | 0 <= i < j < |r| ensures r[i].name != r[j].name {
            assert r[j] == acc[j];
            if i > 0 { assert r[i] == acc[i]; }
          }
        }
      }
      r
    else
      var rest := Accumulate(acc[1..], key, amount);
      var r := [acc[0]] + rest;
      assert r[1..] == rest;
      assert DistinctNames(acc) ==> DistinctNames(acc[1..]) by {
        if DistinctNames(acc) {
          forall i, j | 0 <= i < j < |acc[1..]| ensures acc[1..][i].name != acc[1..][j].name {
            assert acc[1..][i] == acc[i + 1] && acc[1..][j] == acc[j + 1];
          }
        }
      }
      assert DistinctNames(acc) ==> DistinctNames(r) by {
        if DistinctNames(acc) {
          assert acc[0].name !in Names(acc[1..]) by {
            NamesAreIndexed(acc[1..], acc[0].name);
            forall i | 0 <= i < |acc[1..]| ensures acc[1..][i].name != acc[0].name {
              assert acc[1..][i] == acc[i + 1];
            }
          }
          NamesAreIndexed(rest, acc[0].name);
          forall i, j | 0 <= i < j < |r| ensures r[i].name != r[j].name {
            if i == 0 {
              assert r[j] == rest[j - 1];
            } else {
              assert r[i] == rest[i - 1] && r[j] == rest[j - 1];
            }
          }
        }
      }
      r
  }

  /** A name is among the names of a chart exactly when some entry has it. */
  lemma {:induction false} NamesAreIndexed(slices: seq<Slice>, key: string)
    ensures key in Names(slices) <==> exists i :: 0 <= i < |slices| && slices[i].name == key
    decreases |slices|
  {
    if slices != [] {
      NamesAreIndexed(slices[1..], key);
      if key in Names(slices[1..]) {
        var i :| 0 <= i < |slices[1..]| && slices[1..][i].name == key;
        assert slices[i + 1].name == key;
      }
      if exists i :: 0 <= i < |slices| && slices[i].name == key {
        var i :| 0 <= i < |slices| && slices[i].name == key;
        if i > 0 { assert slices[1..][i - 1].name == key; }
      }
    }
  }

  /** `rows.reduce((acc, cur) => ..., acc)`, one row at a time from the front. */
  function GroupInto(acc: seq<Slice>, rows: seq<Labeled>): seq<Slice>
    decreases |rows|
  {
    if rows == [] then acc
    else GroupInto(Accumulate(acc, GroupKey(rows[0].name), AmountOrZero(rows[0].amount)), rows[1..])
  }

  /** What the fold adds to an accumulator: every key of the rows, each
      with the sum of its rows' amounts. */
  lemma {:induction false} GroupIntoSums(acc: seq<Slice>, rows: seq<Labeled>)
    requires DistinctNames(acc)
    ensures DistinctNames(GroupInto(acc, rows))
    ensures Names(GroupInto(acc, rows)) == Names(acc) + Keys(rows)
    ensures forall k :: ValueOf(GroupInto(acc, rows), k) == ValueOf(acc, k) + SumFor(rows, k)
    ensures Total(GroupInto(acc, rows)) == Total(acc) + SumAll(rows)
    decreases |rows|
  {
    if rows != [] {
      var key := GroupKey(rows[0].name);
      var next := Accumulate(acc, key, AmountOrZero(rows[0].amount));
      GroupIntoSums(next, rows[1..]);
    }
  }

  /** The chart data of `fetchAll`: one entry per label, holding that
      label's total; the entries together hold every row's amount. */
  function Group(rows: seq<Labeled>): (r: seq<Slice>)
    ensures DistinctNames(r)
    ensures Names(r) == Keys(rows)
    ensures forall k :: k in Names(r) ==> ValueOf(r, k) == SumFor(rows, k)
    ensures Total(r) == SumAll(rows)
  {
    GroupIntoSums([], rows);
    GroupInto([], rows)
  }

  function BySource(rows: seq<IncomeRow>): (r: seq<Labeled>)
    ensures |r| == |rows|
    ensures forall i :: 0 <= i < |rows| ==> r[i] == Labeled(rows[i].source, rows[i].amount)
  {
    Map((row: IncomeRow) => Labeled(row.source, row.amount), rows)
  }

  function ByCategory(rows: seq<ExpenseRow>): (r: seq<Labeled>)
    ensures |r| == |rows|
    ensures forall i :: 0 <= i < |rows| ==> r[i] == Labeled(rows[i].category, rows[i].amount)
  {
    Map((row: ExpenseRow) => Labeled(row.category, row.amount), rows)
  }

  /** The state before the first fetch: zero totals, empty charts. The
      initial summary object has no `balance`, which the screen never
      shows; it is 0 here. */
  function InitialDashboard(): (r: DashboardState)
    ensures r.summary.totalIncome == 0 && r.summary.totalExpenses == 0
    ensures Names(r.incomeData) == {} && Total(r.incomeData) == 0
    ensures Names(r.expenseData) == {} && Total(r.expenseData) == 0
  {
    DashboardState(Summary(0, 0, 0), [], [])
  }

  /** `fetchAll`: each reply that carries data replaces its part of the
      state; a reply without data leaves that part as it was. */
  function FetchAll(st: DashboardState, sum: Option<Summary>,
                    incomes: Option<seq<IncomeRow>>, expenses: Option<seq<ExpenseRow>>): (r: DashboardState)
    ensures sum.None? ==> r.summary == st.summary
    ensures sum.Some? ==> r.summary == sum.value
    ensures incomes.None? ==> r.incomeData == st.incomeData
    ensures incomes.Some? ==>
              && DistinctNames(r.incomeData)
              && Names(r.incomeData) == Keys(BySource(incomes.value))
              && (forall k :: k in Names(r.incomeData) ==> ValueOf(r.incomeData, k) == SumFor(BySource(incomes.value), k))
              && Total(r.incomeData) == SumAll(BySource(incomes.value))
    ensures expenses.None? ==> r.expenseData == st.expenseData
    ensures expenses.Some? ==>
              && DistinctNames(r.expenseData)
              && Names(r.expenseData) == Keys(ByCategory(expenses.value))
              && (forall k :: k in Names(r.expenseData) ==> ValueOf(r.expenseData, k) == SumFor(ByCategory(expenses.value), k))
              && Total(r.expenseData) == SumAll(ByCategory(expenses.value))
  {
    DashboardState(
      if sum.Some? then sum.value else st.summary,
      if incomes.Some? then Group(BySource(incomes.value)) else st.incomeData,
      if expenses.Some? then Group(ByCategory(expenses.value)) else st.expenseData)
  }

  /** An empty label and a missing label land in the same group as a
      label literally spelled "Uncategorized": that group is charted, and
      its value includes the row's amount besides every other row keyed
      "Uncategorized". */
  lemma FalsyLabelsShareUncategorized(rows: seq<Labeled>, i: nat)
    requires i < |rows|
    requires !Truthy(rows[i].name)
    ensures Uncategorized in Names(Group(rows))
    ensures ValueOf(Group(rows), Uncategorized)
            == SumFor(rows[..i], Uncategorized) + AmountOrZero(rows[i].amount) + SumFor(rows[i + 1..], Uncategorized)
  {
    KeysHold(rows, i);
    assert rows == rows[..i] + ([rows[i]] + rows[i + 1..]);
    SumForConcat(rows[..i], [rows[i]] + rows[i + 1..], Uncategorized);
    assert ([rows[i]] + rows[i + 1..])[1..] == rows[i + 1..];
  }

  /** The sum for a key splits over a concatenation. */
  lemma {:induction false} SumForConcat(a: seq<Labeled>, b: seq<Labeled>, key: string)
    ensures SumFor(a + b, key) == SumFor(a, key) + SumFor(b, key)
    decreases |a|
  {
    if a == [] {
      assert a + b == b;
    } else {
      assert (a + b)[0] == a[0];
      assert (a + b)[1..] == a[1..] + b;
      SumForConcat(a[1..], b, key);
    }
  }

  lemma {:induction false} KeysHold(rows: seq<Labeled>, i: nat)
    requires i < |rows|
    ensures GroupKey(rows[i].name) in Keys(rows)
    decreases i
  {
    if i > 0 {
      KeysHold(rows[1..], i - 1);
      assert rows[1..][i - 1] == rows[i];
    }
  }

  // ---------------------------------------------------------------------
  // Recent transactions.

  /** `RecentList.load`: RPC data is shown as returned when the call gave
      data and no error (an empty array counts as data); otherwise the
      tagged two-table fallback, newest first, cut to 8. */
  function RecentLoad(rpc: RpcReply, inc: Option<seq<IncomeRow>>, exp: Option<seq<ExpenseRow>>): (r: seq<Tx>)
    ensures rpc.data.Some? && rpc.error.None? ==> r == rpc.data.value
    ensures !(rpc.data.Some? && rpc.error.None?) ==>
              && |r| == Min(RecentCount, |Page(Rows(inc), PageSize)| + |Page(Rows(exp), PageSize)|)
              && r <= SortDesc(RecentConcat(inc, exp))
              && SortedDesc(r)
  {
    if rpc.data.Some? && rpc.error.None? then rpc.data.value
    else RecentFallback(inc, exp)
  }
}
