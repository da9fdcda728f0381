/** The client-side fallback that merges the `income` and `expenses` tables
    into one newest-first transaction list when the server-side aggregation
    call returns nothing.

    There are two variants. The history screen keeps every column of a row,
    adds `type`, and copies an income row's `source` into `category`. The
    dashboard's recent list reads at most 50 rows per table, tags ids with
    `inc-`/`exp-` so that rows of the two tables cannot share a key, and
    keeps only the 8 newest transactions. */
module Reconcile {
  import opened Ledger
  import opened DateOrder

  /** Result of a server-side aggregation call: `data` is `null` or an
      array, `error` is present when the call failed. */
  datatype RpcReply = RpcReply(data: Option<seq<Tx>>, error: Option<string>)

  function Map<A, B>(f: A -> B, s: seq<A>): (r: seq<B>)
    ensures |r| == |s|
    ensures forall i :: 0 <= i < |s| ==> r[i] == f(s[i])
  {
    seq(|s|, i requires 0 <= i < |s| => f(s[i]))
  }

  // ---------------------------------------------------------------------
  // History screen: `{ ...r, type: 'income', category: r.source }` and
  // `{ ...r, type: 'expense' }`.

  function HistoryIncomeItem(r: IncomeRow): Tx {
    Tx(r.id, r.date, Some(IncomeType), r.source, r.amount, r.notes, r.source)
  }

  function HistoryExpenseItem(r: ExpenseRow): Tx {
    Tx(r.id, r.date, Some(ExpenseType), r.category, r.amount, r.notes, None)
  }

  /** The history fallback before sorting: income items, then expense items. */
  function HistoryConcat(inc: Option<seq<IncomeRow>>, exp: Option<seq<ExpenseRow>>): seq<Tx> {
    Map(HistoryIncomeItem, Rows(inc)) + Map(HistoryExpenseItem, Rows(exp))
  }

  /** Every fetched row appears exactly once, newest first, with rows of the
      same date in fetch order and income rows ahead of expense rows. */
  function HistoryFallback(inc: Option<seq<IncomeRow>>, exp: Option<seq<ExpenseRow>>): (r: seq<Tx>)
    ensures |r| == |Rows(inc)| + |Rows(exp)|
    ensures SortedDesc(r)
    ensures multiset(r) == multiset(HistoryConcat(inc, exp))
    ensures forall d :: (OnDate(r, d) ==
      OnDate(Map(HistoryIncomeItem, Rows(inc)), d) + OnDate(Map(HistoryExpenseItem, Rows(exp)), d))
  {
    var merged := HistoryConcat(inc, exp);
    forall d ensures OnDate(SortDesc(merged), d) ==
      OnDate(Map(HistoryIncomeItem, Rows(inc)), d) + OnDate(Map(HistoryExpenseItem, Rows(exp)), d)
    {
      SortedConcatTies(Map(HistoryIncomeItem, Rows(inc)), Map(HistoryExpenseItem, Rows(exp)), d);
    }
    SortDesc(merged)
  }

  /** Each item of the history fallback is one fetched row with its type
      added: an income row whose `category` repeats its `source`, or an
      expense row that keeps its own `category`. */
  lemma HistoryItemsTraceToRows(inc: Option<seq<IncomeRow>>, exp: Option<seq<ExpenseRow>>, t: Tx)
    requires t in HistoryFallback(inc, exp)
    ensures t.txType == Some(IncomeType) || t.txType == Some(ExpenseType)
    ensures t.txType == Some(IncomeType) ==>
      exists r :: r in Rows(inc) && t.id == r.id && t.date == r.date && t.category == r.source
        && t.source == r.source && t.amount == r.amount && t.notes == r.notes
    ensures t.txType == Some(ExpenseType) ==>
      exists r :: r in Rows(exp) && t.id == r.id && t.date == r.date && t.category == r.category
        && t.amount == r.amount && t.notes == r.notes && t.source.None?
  {
    assert t in multiset(HistoryConcat(inc, exp));
    var a := Map(HistoryIncomeItem, Rows(inc));
    var b := Map(HistoryExpenseItem, Rows(exp));
    assert t in a + b;
    if t in a {
      var i :| 0 <= i < |a| && a[i] == t;
      assert Rows(inc)[i] in Rows(inc);
    } else {
      var i :| 0 <= i < |b| && b[i] == t;
      assert Rows(exp)[i] in Rows(exp);
    }
  }

  /** One donation on day 5 and one maintenance expense on day 6 merge to
      the expense first, then the donation. */
  lemma HistoryFallbackExample()
    ensures HistoryFallback(
              Some([IncomeRow("1", 5, Some("Donation"), Some(500), None)]),
              Some([ExpenseRow("1", 6, Some("Maintenance"), Some(200), None)]))
            == [Tx("1", 6, Some(ExpenseType), Some("Maintenance"), Some(200), None, None),
                Tx("1", 5, Some(IncomeType), Some("Donation"), Some(500), None, Some("Donation"))]
  {
    var inc := [IncomeRow("1", 5, Some("Donation"), Some(500), None)];
    var exp := [ExpenseRow("1", 6, Some("Maintenance"), Some(200), None)];
    var a := HistoryIncomeItem(inc[0]);
    var b := HistoryExpenseItem(exp[0]);
    assert Map(HistoryIncomeItem, inc) == [a];
    assert Map(HistoryExpenseItem, exp) == [b];
    assert HistoryConcat(Some(inc), Some(exp)) == [a, b];
    assert [a, b][1..] == [b];
    assert SortDesc([b]) == [b] by {
      assert [b][1..] == [];
    }
    assert SortDesc([a, b]) == Insert(a, [b]);
    assert Insert(a, [b]) == [b] + Insert(a, []);
  }

  // ---------------------------------------------------------------------
  // Dashboard recent list: tagged ids, at most 50 rows per table, 8 shown.

  const IncomeTag: string := "inc-"
  const ExpenseTag: string := "exp-"
  /** The `.limit(50)` of each fallback query. */
  const PageSize: nat := 50
  /** The recent list shows at most this many transactions. */
  const RecentCount: nat := 8

  /** What a `.limit(n)` query returns: the first `n` rows in the server's order. */
  function Page<T>(rows: seq<T>, n: nat): (r: seq<T>)
    ensures |r| == Min(n, |rows|)
    ensures r <= rows
  {
    if |rows| <= n then rows else rows[..n]
  }

  function RecentIncomeItem(r: IncomeRow): Tx {
    Tx(IncomeTag + r.id, r.date, Some(IncomeType), r.source, r.amount, None, None)
  }

  function RecentExpenseItem(r: ExpenseRow): Tx {
    Tx(ExpenseTag + r.id, r.date, Some(ExpenseType), r.category, r.amount, None, None)
  }

  /** The recent-list fallback before sorting. */
  function RecentConcat(inc: Option<seq<IncomeRow>>, exp: Option<seq<ExpenseRow>>): seq<Tx> {
    Map(RecentIncomeItem, Page(Rows(inc), PageSize)) + Map(RecentExpenseItem, Page(Rows(exp), PageSize))
  }

  /** The newest `min(8, fetched)` transactions of the stable newest-first
      merge of the two fetched pages. */
  function RecentFallback(inc: Option<seq<IncomeRow>>, exp: Option<seq<ExpenseRow>>): (r: seq<Tx>)
    ensures SortedDesc(r)
    ensures r <= SortDesc(RecentConcat(inc, exp))
    ensures |r| == Min(RecentCount, |Page(Rows(inc), PageSize)| + |Page(Rows(exp), PageSize)|)
  {
    var sorted := SortDesc(RecentConcat(inc, exp));
    if |sorted| <= RecentCount then sorted else sorted[..RecentCount]
  }

  /** The recent list holds only items of the merge it was cut from. */
  lemma RecentInMerge(inc: Option<seq<IncomeRow>>, exp: Option<seq<ExpenseRow>>, t: Tx)
    requires t in RecentFallback(inc, exp)
    ensures t in RecentConcat(inc, exp)
  {
    var sorted := SortDesc(RecentConcat(inc, exp));
    var k :| 0 <= k < |RecentFallback(inc, exp)| && RecentFallback(inc, exp)[k] == t;
    assert sorted[k] == t;
    assert t in multiset(sorted);
  }

  /** Each item of the recent list is one fetched row, tagged: an income
      row becomes an `inc-` id of type "income" with its `source` as
      category, an expense row an `exp-` id of type "expense" with its own
      category; both keep date and amount and carry no notes. */
  lemma RecentItemsTraceToRows(inc: Option<seq<IncomeRow>>, exp: Option<seq<ExpenseRow>>, t: Tx)
    requires t in RecentFallback(inc, exp)
    ensures t.txType == Some(IncomeType) || t.txType == Some(ExpenseType)
    ensures t.txType == Some(IncomeType) ==>
      exists r :: r in Rows(inc) && t.id == IncomeTag + r.id && t.date == r.date && t.category == r.source
        && t.amount == r.amount && t.notes.None? && t.source.None?
    ensures t.txType == Some(ExpenseType) ==>
      exists r :: r in Rows(exp) && t.id == ExpenseTag + r.id && t.date == r.date && t.category == r.category
        && t.amount == r.amount && t.notes.None? && t.source.None?
  {
    var pi := Page(Rows(inc), PageSize);
    var pe := Page(Rows(exp), PageSize);
    var a := Map(RecentIncomeItem, pi);
    var b := Map(RecentExpenseItem, pe);
    RecentInMerge(inc, exp, t);
    assert t in a + b;
    if t in a {
      var i :| 0 <= i < |a| && a[i] == t;
      assert pi[i] == Rows(inc)[i];
      assert Rows(inc)[i] in Rows(inc);
    } else {
      var i :| 0 <= i < |b| && b[i] == t;
      assert pe[i] == Rows(exp)[i];
      assert Rows(exp)[i] in Rows(exp);
    }
  }

  /** An `inc-` id never equals an `exp-` id, whatever the row ids are. */
  lemma TagsNeverCollide(a: string, b: string)
    ensures IncomeTag + a != ExpenseTag + b
  {
    assert (IncomeTag + a)[0] == 'i';
    assert (ExpenseTag + b)[0] == 'e';
  }

  /** Tagging is injective: different row ids give different tagged ids. */
  lemma TagInjective(tag: string, a: string, b: string)
    requires tag + a == tag + b
    ensures a == b
  {
    assert a == (tag + a)[|tag|..];
    assert b == (tag + b)[|tag|..];
  }

  /** No two income rows share an id. */
  predicate DistinctIncomeIds(rows: seq<IncomeRow>) {
    UniqueBy(rows, (r: IncomeRow) => r.id)
  }

  /** No two expense rows share an id. */
  predicate DistinctExpenseIds(rows: seq<ExpenseRow>) {
    UniqueBy(rows, (r: ExpenseRow) => r.id)
  }

  /** Inserting a transaction whose id is new keeps ids distinct. */
  lemma {:induction false} InsertKeepsDistinctIds(x: Tx, s: seq<Tx>)
    requires SortedDesc(s) && DistinctIds(s)
    requires forall t :: t in s ==> t.id != x.id
    ensures DistinctIds(Insert(x, s))
    decreases |s|
  {
    if s == [] || s[0].date <= x.date {
      var r := [x] + s;
      forall i, j | 0 <= i < j < |r| ensures r[i].id != r[j].id {
        assert r[j] == s[j - 1];
        if i > 0 { assert r[i] == s[i - 1]; }
      }
    } else {
      var rest := Insert(x, s[1..]);
      InsertKeepsDistinctIds(x, s[1..]);
      var r := [s[0]] + rest;
      assert s == [s[0]] + s[1..];
      forall i, j | 0 <= i < j < |r| ensures r[i].id != r[j].id {
        if i == 0 {
          assert r[j] == rest[j - 1];
          assert r[j] in multiset(s[1..]) + multiset{x};
          if r[j] != x {
            var k :| 0 <= k < |s[1..]| && s[1..][k] == r[j];
            assert s[k + 1] == r[j];
          }
        } else {
          assert r[i] == rest[i - 1] && r[j] == rest[j - 1];
        }
      }
    }
  }

  /** Sorting never makes two transactions share an id. */
  lemma {:induction false} SortKeepsDistinctIds(s: seq<Tx>)
    requires DistinctIds(s)
    ensures DistinctIds(SortDesc(s))
    decreases |s|
  {
    if s != [] {
      assert DistinctIds(s[1..]) by {
        forall i, j | 0 <= i < j < |s[1..]| ensures s[1..][i].id != s[1..][j].id {
          assert s[1..][i] == s[i + 1] && s[1..][j] == s[j + 1];
        }
      }
      SortKeepsDistinctIds(s[1..]);
      var tail := SortDesc(s[1..]);
      forall t | t in tail ensures t.id != s[0].id {
        assert t in multiset(s[1..]);
        var k :| 0 <= k < |s[1..]| && s[1..][k] == t;
        assert s[k + 1] == t;
      }
      InsertKeepsDistinctIds(s[0], tail);
    }
  }

  /** Two id-distinct lists whose ids are disjoint concatenate to an
      id-distinct list. */
  lemma DistinctIdsConcat(a: seq<Tx>, b: seq<Tx>)
    requires DistinctIds(a) && DistinctIds(b)
    requires forall x, y :: x in a && y in b ==> x.id != y.id
    ensures DistinctIds(a + b)
  {
    var m := a + b;
    forall i, j | 0 <= i < j < |m| ensures m[i].id != m[j].id {
      if j < |a| {
        assert m[i] == a[i] && m[j] == a[j];
      } else if i >= |a| {
        assert m[i] == b[i - |a|] && m[j] == b[j - |a|];
      } else {
        assert m[i] == a[i] && m[j] == b[j - |a|];
      }
    }
  }

  /** Tagged income ids are distinct when the income ids are. */
  lemma TaggedIncomeDistinct(rows: seq<IncomeRow>)
    requires DistinctIncomeIds(rows)
    ensures DistinctIds(Map(RecentIncomeItem, rows))
  {
    var m := Map(RecentIncomeItem, rows);
    forall i, j | 0 <= i < j < |m| ensures m[i].id != m[j].id {
      if m[i].id == m[j].id {
        TagInjective(IncomeTag, rows[i].id, rows[j].id);
      }
    }
  }

  /** Tagged expense ids are distinct when the expense ids are. */
  lemma TaggedExpenseDistinct(rows: seq<ExpenseRow>)
    requires DistinctExpenseIds(rows)
    ensures DistinctIds(Map(RecentExpenseItem, rows))
  {
    var m := Map(RecentExpenseItem, rows);
    forall i, j | 0 <= i < j < |m| ensures m[i].id != m[j].id {
      if m[i].id == m[j].id {
        TagInjective(ExpenseTag, rows[i].id, rows[j].id);
      }
    }
  }

  /** The tagged items of an income page and an expense page, each with
      unique row ids, have unique ids. */
  lemma TaggedPagesDistinct(pi: seq<IncomeRow>, pe: seq<ExpenseRow>)
    requires DistinctIncomeIds(pi)
    requires DistinctExpenseIds(pe)
    ensures DistinctIds(Map(RecentIncomeItem, pi) + Map(RecentExpenseItem, pe))
  {
    var a := Map(RecentIncomeItem, pi);
    var b := Map(RecentExpenseItem, pe);
    TaggedIncomeDistinct(pi);
    TaggedExpenseDistinct(pe);
    forall x, y | x in a && y in b ensures x.id != y.id {
      var i :| 0 <= i < |a| && a[i] == x;
      var j :| 0 <= j < |b| && b[j] == y;
      TagsNeverCollide(pi[i].id, pe[j].id);
    }
    DistinctIdsConcat(a, b);
  }

  /** When each table's ids are unique, the recent list never shows two
      transactions with the same key: tagging keeps ids apart within a
      table and the two tags keep the tables apart. */
  lemma RecentIdsDistinct(inc: Option<seq<IncomeRow>>, exp: Option<seq<ExpenseRow>>)
    requires DistinctIncomeIds(Rows(inc))
    requires DistinctExpenseIds(Rows(exp))
    ensures DistinctIds(RecentFallback(inc, exp))
  {
    var pi := Page(Rows(inc), PageSize);
    var pe := Page(Rows(exp), PageSize);
    assert DistinctIncomeIds(pi) by {
      forall i, j | 0 <= i < j < |pi| ensures pi[i].id != pi[j].id {
        assert pi[i] == Rows(inc)[i] && pi[j] == Rows(inc)[j];
      }
    }
    assert DistinctExpenseIds(pe) by {
      forall i, j | 0 <= i < j < |pe| ensures pe[i].id != pe[j].id {
        assert pe[i] == Rows(exp)[i] && pe[j] == Rows(exp)[j];
      }
    }
    TaggedPagesDistinct(pi, pe);
    SortKeepsDistinctIds(RecentConcat(inc, exp));
    var sorted := SortDesc(RecentConcat(inc, exp));
    var r := RecentFallback(inc, exp);
    forall i, j | 0 <= i < j < |r| ensures r[i].id != r[j].id {
      assert r[i] == sorted[i] && r[j] == sorted[j];
    }
  }

  /** While neither table holds more than 50 rows, the recent list is the
      8 newest transactions of the two whole tables. Beyond 50 rows the
      server decides which rows are read, and a newer row can be missed
      (`NewestRowBeyondPageMissed`). */
  lemma RecentIsNewestWhenSmall(inc: seq<IncomeRow>, exp: seq<ExpenseRow>)
    requires |inc| <= PageSize && |exp| <= PageSize
    ensures RecentFallback(Some(inc), Some(exp)) <=
      SortDesc(Map(RecentIncomeItem, inc) + Map(RecentExpenseItem, exp))
  {
  }

  /** Fifty-one income rows whose last row in server order is the newest:
      the `.limit(50)` read never sees it, so the recent list leaves out
      the newest transaction of the table. */
  lemma NewestRowBeyondPageMissed()
    ensures var rows := seq(51, i => IncomeRow("r", if i == 50 then 2 else 1, None, None, None));
            && (forall k :: 0 <= k < 50 ==> rows[k].date < rows[50].date)
            && RecentIncomeItem(rows[50]) !in RecentFallback(Some(rows), Some([]))
  {
    var rows := seq(51, i => IncomeRow("r", if i == 50 then 2 else 1, None, None, None));
    var page := Page(rows, PageSize);
    assert page == rows[..50];
    var merged := RecentConcat(Some(rows), Some([]));
    assert merged == Map(RecentIncomeItem, page) + Map(RecentExpenseItem, []);
    forall x | x in RecentFallback(Some(rows), Some([])) ensures x.date == 1 {
      RecentInMerge(Some(rows), Some([]), x);
      var k :| 0 <= k < |merged| && merged[k] == x;
      assert page[k].date == 1;
    }
  }
}
