/** Ordering transactions newest first.

    The screens sort with `merged.sort((a, b) => new Date(b.date) - new Date(a.date))`:
    a later date comes first and, because `Array.prototype.sort` is stable,
    transactions on the same date keep the order they had before the sort.
    `SortDesc` is a stable insertion sort with that behaviour, and
    `StableSortIsUnique` shows that any other stable newest-first sort
    returns exactly the same sequence. */
module DateOrder {
  import opened Ledger

  /** Newest first: dates never increase along the sequence. */
  predicate SortedDesc(s: seq<Tx>) {
    forall i, j :: 0 <= i < j < |s| ==> s[i].date >= s[j].date
  }

  /** The transactions of `s` dated `d`, in their order in `s`. */
  function OnDate(s: seq<Tx>, d: int): seq<Tx> {
    if s == [] then []
    else (if s[0].date == d then [s[0]] else []) + OnDate(s[1..], d)
  }

  /** `output` is what a stable newest-first sort of `input` returns: it is
      sorted, it holds the same transactions, and on every date the
      transactions keep their input order. */
  ghost predicate StableDesc(input: seq<Tx>, output: seq<Tx>) {
    && SortedDesc(output)
    && multiset(output) == multiset(input)
    && forall d :: OnDate(output, d) == OnDate(input, d)
  }

  /** A transaction no older than the head of a newest-first list can be
      put in front of it. */
  lemma ConsSorted(h: Tx, s: seq<Tx>)
    requires SortedDesc(s)
    requires s == [] || s[0].date <= h.date
    ensures SortedDesc([h] + s)
  {
    var r := [h] + s;
    forall i, j | 0 <= i < j < |r| ensures r[i].date >= r[j].date {
      if i == 0 {
        assert r[j] == s[j - 1];
      } else {
        assert r[i] == s[i - 1] && r[j] == s[j - 1];
      }
    }
  }

  /** Inserts `x`, which precedes every element of `s` in the input, before
      the first element of `s` that is not strictly newer than it. */
  function Insert(x: Tx, s: seq<Tx>): (r: seq<Tx>)
    requires SortedDesc(s)
    ensures SortedDesc(r)
    ensures multiset(r) == multiset(s) + multiset{x}
    decreases |s|
  {
    if s == [] || s[0].date <= x.date then
      ConsSorted(x, s);
      [x] + s
    else
      var rest := Insert(x, s[1..]);
      assert s == [s[0]] + s[1..];
      assert rest[0] in multiset(s[1..]) + multiset{x};
      ConsSorted(s[0], rest);
      [s[0]] + rest
  }

  /** The same-date transactions of a list with a given head. */
  lemma OnDateCons(h: Tx, t: seq<Tx>, d: int)
    ensures OnDate([h] + t, d) == (if h.date == d then [h] else []) + OnDate(t, d)
  {
    assert ([h] + t)[1..] == t;
  }

  /** Inserting `x` adds it in front of the transactions sharing its date
      and leaves the other dates alone. */
  lemma {:induction false} InsertOnDate(x: Tx, s: seq<Tx>, d: int)
    requires SortedDesc(s)
    ensures OnDate(Insert(x, s), d) == (if x.date == d then [x] else []) + OnDate(s, d)
    decreases |s|
  {
    if s == [] || s[0].date <= x.date {
      OnDateCons(x, s, d);
    } else {
      var rest := Insert(x, s[1..]);
      assert Insert(x, s) == [s[0]] + rest;
      OnDateCons(s[0], rest, d);
      OnDateCons(s[0], s[1..], d);
      assert s == [s[0]] + s[1..];
      InsertOnDate(x, s[1..], d);
      if x.date == d {
        // `x` is strictly older than `s[0]`, so `s[0]` is not dated `d`
        assert s[0].date != d;
      } else {
        assert OnDate(rest, d) == OnDate(s[1..], d);
      }
    }
  }

  /** Stable insertion sort, newest first. */
  function SortDesc(s: seq<Tx>): (r: seq<Tx>)
    ensures SortedDesc(r)
    ensures multiset(r) == multiset(s)
    ensures forall d :: OnDate(r, d) == OnDate(s, d)
    ensures |r| == |s|
  {
    if s == [] then []
    else
      var r := Insert(s[0], SortDesc(s[1..]));
      assert multiset(s) == multiset{s[0]} + multiset(s[1..]) by {
        assert s == [s[0]] + s[1..];
      }
      assert |r| == |multiset(r)|;
      forall d ensures OnDate(r, d) == OnDate(s, d) {
        InsertOnDate(s[0], SortDesc(s[1..]), d);
      }
      r
  }

  /** The date-`d` transactions of a concatenation are those of the first
      part followed by those of the second. */
  lemma {:induction false} OnDateAppend(a: seq<Tx>, b: seq<Tx>, d: int)
    ensures OnDate(a + b, d) == OnDate(a, d) + OnDate(b, d)
    decreases |a|
  {
    if a == [] {
      assert a + b == b;
    } else {
      assert (a + b)[0] == a[0];
      assert (a + b)[1..] == a[1..] + b;
      OnDateAppend(a[1..], b, d);
    }
  }

  /** A transaction is in a list exactly when it is among that list's
      transactions on its own date. */
  lemma {:induction false} InOnDate(s: seq<Tx>, t: Tx)
    ensures t in s <==> t in OnDate(s, t.date)
    decreases |s|
  {
    if s != [] {
      InOnDate(s[1..], t);
      assert s == [s[0]] + s[1..];
    }
  }

  /** On a list sorted newest first, the transactions dated like the head
      start with the head. */
  lemma OnDateOfHead(s: seq<Tx>)
    requires s != []
    ensures OnDate(s, s[0].date) == [s[0]] + OnDate(s[1..], s[0].date)
  {
  }

  /** Two newest-first lists that agree on the transactions of every date
      are the same list. */
  lemma {:induction false} SortedDeterminedByDates(r1: seq<Tx>, r2: seq<Tx>)
    requires SortedDesc(r1) && SortedDesc(r2)
    requires forall d :: OnDate(r1, d) == OnDate(r2, d)
    ensures r1 == r2
    decreases |r1|
  {
    if r1 == [] {
    } else if r2 == [] {
      InOnDate(r1, r1[0]);
      InOnDate(r2, r1[0]);
      assert false;
    } else {
      InOnDate(r1, r2[0]);
      InOnDate(r2, r2[0]);
      InOnDate(r1, r1[0]);
      InOnDate(r2, r1[0]);
      // each head is in the other list, so neither is older than the other
      assert r1[0].date == r2[0].date;
      var d0 := r1[0].date;
      OnDateOfHead(r1);
      OnDateOfHead(r2);
      assert r1[0] == OnDate(r1, d0)[0] == OnDate(r2, d0)[0] == r2[0];
      forall d ensures OnDate(r1[1..], d) == OnDate(r2[1..], d) {
        var h := if d == d0 then [r1[0]] else [];
        assert OnDate(r1, d) == h + OnDate(r1[1..], d);
        assert OnDate(r2, d) == h + OnDate(r2[1..], d);
        assert OnDate(r1[1..], d) == (h + OnDate(r1[1..], d))[|h|..];
        assert OnDate(r2[1..], d) == (h + OnDate(r2[1..], d))[|h|..];
      }
      SortedDeterminedByDates(r1[1..], r2[1..]);
      assert r1 == [r1[0]] + r1[1..];
      assert r2 == [r2[0]] + r2[1..];
    }
  }

  /** Any stable newest-first sort of `s` returns exactly `SortDesc(s)`, so
      the model does not depend on which stable algorithm the JavaScript
      engine uses. */
  lemma {:induction false} StableSortIsUnique(s: seq<Tx>, r: seq<Tx>)
    requires StableDesc(s, r)
    ensures r == SortDesc(s)
  {
    SortedDeterminedByDates(r, SortDesc(s));
  }

  /** The stable sort of a concatenation keeps, on every date, all the
      transactions of the first part ahead of those of the second. */
  lemma SortedConcatTies(a: seq<Tx>, b: seq<Tx>, d: int)
    ensures OnDate(SortDesc(a + b), d) == OnDate(a, d) + OnDate(b, d)
  {
    OnDateAppend(a, b, d);
  }
}
