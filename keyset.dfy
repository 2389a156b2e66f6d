/** The keyset query that `PostgresProducer.scan_table` sends to the source
    database and the pages in which `fetchmany` hands its result back
    (src/auth_to_notification/producers.py:53-61). */
module Keyset {
  import opened Records

  /** The WHERE clause as written: both comparisons inclusive, joined by AND. */
  predicate Selects(w: Entry, u: User)
  {
    u.updatedAt >= w.modified && u.id >= w.id
  }

  /** The lexicographic order the query sorts by:
      (updated_at, id) at or after (modified, id). */
  predicate AtOrAfter(w: Entry, u: User)
  {
    KeyLe(w.modified, w.id, u.updatedAt, u.id)
  }

  /** Every row the AND predicate selects is lexicographically at or after
      the watermark. */
  lemma SelectedIsAtOrAfter(w: Entry, u: User)
    requires Selects(w, u)
    ensures AtOrAfter(w, u)
  {
  }

  /** The two predicates differ exactly on rows whose timestamp moved past the
      watermark while their id sorts below it: the AND predicate skips them. */
  lemma SkippedRowsAreExactly(w: Entry, u: User)
    ensures AtOrAfter(w, u) && !Selects(w, u) <==> u.updatedAt > w.modified && u.id < w.id
  {
  }

  /** A concrete row lexicographically after the watermark that the query
      as written never returns. */
  lemma AndPredicateUnderFetches()
    ensures exists w: Entry, u: User :: AtOrAfter(w, u) && !Selects(w, u)
  {
    var w := Entry(5, 10);
    var u := User(3, "late", None, None, false, true, 11);
    assert AtOrAfter(w, u) && !Selects(w, u);
  }

  predicate Sorted(s: seq<User>)
  {
    forall i, j :: 0 <= i < j < |s| ==> RowLe(s[i], s[j])
  }

  /** The rows of a table that the WHERE clause keeps, in table order. */
  function Selected(rows: seq<User>, w: Entry): seq<User>
  {
    if rows == [] then []
    else if Selects(w, rows[0]) then [rows[0]] + Selected(rows[1..], w)
    else Selected(rows[1..], w)
  }

  /** The WHERE clause keeps each selected row as often as the table holds
      it, and no other row. */
  lemma {:induction false} SelectedCounts(rows: seq<User>, w: Entry)
    ensures forall u :: multiset(Selected(rows, w))[u] == if Selects(w, u) then multiset(rows)[u] else 0
  {
    if rows != [] {
      assert rows == [rows[0]] + rows[1..];
      SelectedCounts(rows[1..], w);
    }
  }

  function Insert(u: User, s: seq<User>): seq<User>
  {
    if s == [] then [u]
    else if RowLe(u, s[0]) then [u] + s
    else [s[0]] + Insert(u, s[1..])
  }

  /** A row no later than every row of a sorted sequence can go in front. */
  lemma SortedCons(x: User, s: seq<User>)
    requires Sorted(s)
    requires forall k :: 0 <= k < |s| ==> RowLe(x, s[k])
    ensures Sorted([x] + s)
  {
    var r := [x] + s;
    forall i, j | 0 <= i < j < |r|
      ensures RowLe(r[i], r[j])
    {
      assert r[j] == s[j - 1];
      if i > 0 {
        assert r[i] == s[i - 1];
      }
    }
  }

  lemma {:induction false} InsertPermutes(u: User, s: seq<User>)
    ensures multiset(Insert(u, s)) == multiset(s) + multiset{u}
  {
    if s != [] && !RowLe(u, s[0]) {
      InsertPermutes(u, s[1..]);
      assert s == [s[0]] + s[1..];
    }
  }

  lemma {:induction false} InsertSortedPermutes(u: User, s: seq<User>)
    requires Sorted(s)
    ensures Sorted(Insert(u, s))
    ensures multiset(Insert(u, s)) == multiset(s) + multiset{u}
  {
    InsertPermutes(u, s);
    if s == [] {
    } else if RowLe(u, s[0]) {
      SortedCons(u, s);
    } else {
      var rest := Insert(u, s[1..]);
      InsertSortedPermutes(u, s[1..]);
      forall k | 0 <= k < |rest|
        ensures RowLe(s[0], rest[k])
      {
        assert rest[k] in multiset(s[1..]) + multiset{u} by {
          assert rest[k] in multiset(rest);
        }
        if rest[k] != u {
          var j :| 0 <= j < |s[1..]| && s[1..][j] == rest[k];
          assert s[j + 1] == rest[k];
        }
      }
      SortedCons(s[0], rest);
    }
  }

  /** The `order by updated_at asc, id asc` of the query (an insertion sort). */
  function SortByKey(s: seq<User>): seq<User>
  {
    if s == [] then [] else Insert(s[0], SortByKey(s[1..]))
  }

  /** Sorting orders the rows and keeps each of them as often as it was there. */
  lemma {:induction false} SortByKeySortedPermutes(s: seq<User>)
    ensures Sorted(SortByKey(s))
    ensures multiset(SortByKey(s)) == multiset(s)
  {
    if s != [] {
      SortByKeySortedPermutes(s[1..]);
      InsertSortedPermutes(s[0], SortByKey(s[1..]));
      assert s == [s[0]] + s[1..];
    }
  }

  /** The result of the SELECT for watermark `w`. */
  function Query(rows: seq<User>, w: Entry): seq<User>
  {
    SortByKey(Selected(rows, w))
  }

  /** The query returns the rows the WHERE clause keeps, each as often as the
      table holds it, in ascending (updated_at, id) order. */
  lemma QuerySortedSelection(rows: seq<User>, w: Entry)
    ensures Sorted(Query(rows, w))
    ensures forall u :: multiset(Query(rows, w))[u] == if Selects(w, u) then multiset(rows)[u] else 0
  {
    SelectedCounts(rows, w);
    SortByKeySortedPermutes(Selected(rows, w));
  }

  function Concat(pages: seq<Batch>): seq<User>
  {
    if pages == [] then [] else pages[0] + Concat(pages[1..])
  }

  /** `fetchmany` with page size `n`: non-empty pages of at most `n` rows,
      all full except the last, which together give back the query result. */
  function Pages(q: seq<User>, n: nat): (p: seq<Batch>)
    requires n > 0
    ensures Concat(p) == q
    ensures forall i :: 0 <= i < |p| ==> 0 < |p[i]| <= n
    ensures forall i :: 0 <= i < |p| - 1 ==> |p[i]| == n
    decreases |q|
  {
    if q == [] then []
    else if |q| <= n then [q]
    else
      var rest := Pages(q[n..], n);
      assert q == q[..n] + q[n..];
      [q[..n]] + rest
  }

  lemma {:induction false} PagesEmptyIff(q: seq<User>, n: nat)
    requires n > 0
    ensures Pages(q, n) == [] <==> q == []
  {
    if Pages(q, n) == [] {
      assert Concat(Pages(q, n)) == [];
    }
  }

  /** The first page is the prefix of the query result of length
      min(n, |q|): the earliest rows in (updated_at, id) order. */
  lemma {:induction false} FirstPageIsPrefix(q: seq<User>, n: nat)
    requires n > 0 && q != []
    ensures |Pages(q, n)| > 0
    ensures Pages(q, n)[0] == q[..if |q| < n then |q| else n]
  {
    PagesEmptyIff(q, n);
  }

  /** A prefix of a sorted sequence is sorted and precedes the rest. */
  lemma PrefixOfSorted(q: seq<User>, k: nat)
    requires Sorted(q) && k <= |q|
    ensures Sorted(q[..k])
    ensures forall u, v :: u in q[..k] && v in q[k..] ==> RowLe(u, v)
  {
    forall u, v | u in q[..k] && v in q[k..]
      ensures RowLe(u, v)
    {
      var i :| 0 <= i < k && q[..k][i] == u;
      var j :| 0 <= j < |q[k..]| && q[k..][j] == v;
      assert q[i] == u && q[k + j] == v;
    }
  }

  /** Every row of the query result satisfies the WHERE clause and is a row
      of the table. */
  lemma QueryRowsAreSelected(rows: seq<User>, w: Entry, u: User)
    requires u in Query(rows, w)
    ensures Selects(w, u) && AtOrAfter(w, u) && u in rows
  {
    QuerySortedSelection(rows, w);
    assert multiset(Query(rows, w))[u] > 0;
  }

  /** What the scanner may yield from watermark `w` with page size `n`: the
      first page of the query. Its rows satisfy the WHERE clause, hence are at
      or after the watermark, are in ascending order, number at most `n`, and
      come no later than every row left in the result. */
  lemma FirstPageProperties(rows: seq<User>, w: Entry, n: nat)
    requires n > 0 && Query(rows, w) != []
    ensures |Pages(Query(rows, w), n)| > 0
    ensures var b := Pages(Query(rows, w), n)[0];
      && 0 < |b| <= n
      && b == Query(rows, w)[..|b|]
      && Sorted(b)
      && (forall u :: u in b ==> Selects(w, u) && AtOrAfter(w, u) && u in rows)
      && (forall u, v :: u in b && v in Query(rows, w)[|b|..] ==> RowLe(u, v))
  {
    var q := Query(rows, w);
    QuerySortedSelection(rows, w);
    FirstPageIsPrefix(q, n);
    var b := Pages(q, n)[0];
    PrefixOfSorted(q, |b|);
    forall u | u in b
      ensures Selects(w, u) && AtOrAfter(w, u) && u in rows
    {
      QueryRowsAreSelected(rows, w, u);
    }
  }

  /** In a sorted batch, only rows with the last row's own (updated_at, id)
      satisfy the WHERE clause for the last row's watermark. */
  lemma OnlyLastKeyFromLastWatermark(b: Batch)
    requires Sorted(b) && |b| > 0
    ensures var last := Last(b);
      forall u :: u in b && Selects(Entry(last.id, last.updatedAt), u) ==>
        u.updatedAt == last.updatedAt && u.id == last.id
  {
    forall u | u in b
      ensures RowLe(u, Last(b))
    {
      var i :| 0 <= i < |b| && b[i] == u;
      if i < |b| - 1 {
        assert RowLe(b[i], b[|b| - 1]);
      }
    }
  }

  /** Resuming from the watermark of a first page's last row re-reads none of
      that page's rows except those with the last row's own (updated_at, id):
      the inclusive `>=` on both columns selects the last row again. The new
      watermark is at or after the old one. */
  lemma CommittedPageRescansOnlyItsLastKey(rows: seq<User>, w: Entry, n: nat)
    requires n > 0 && Query(rows, w) != []
    ensures |Pages(Query(rows, w), n)| > 0
    ensures var last := Last(Pages(Query(rows, w), n)[0]);
      var w' := Entry(last.id, last.updatedAt);
      && AtOrAfter(w, last)
      && Selects(w', last)
      && forall u :: u in Pages(Query(rows, w), n)[0] && Selects(w', u) ==>
           u.updatedAt == last.updatedAt && u.id == last.id
  {
    FirstPageProperties(rows, w, n);
    var b := Pages(Query(rows, w), n)[0];
    assert Last(b) in b;
    OnlyLastKeyFromLastWatermark(b);
  }
}
