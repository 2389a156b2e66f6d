/** The scanner (src/auth_to_notification/producers.py): the flattening
    `scan`, the `Producer` with its per-table in-flight markers
    (`not_processed_entities`) and `set_state`, and
    `PostgresProducer.scan_table`. */
module Producers {
  import opened Records
  import opened Keyset
  import opened Checkpoints

  /** Pairs every batch with the table name, keeping their order. */
  function Tagged<B>(table: string, batches: seq<B>): (r: seq<(string, B)>)
    ensures |r| == |batches|
    ensures forall i :: 0 <= i < |r| ==> r[i] == (table, batches[i])
  {
    seq(|batches|, i requires 0 <= i < |batches| => (table, batches[i]))
  }

  /** `scan`: `outputs[i]` is what the scanning method produced for
      `tables[i]`, the calls made in configuration order; the result pairs
      each of those batches with its table name. */
  function Scan<B>(tables: seq<(string, int)>, outputs: seq<seq<B>>): seq<(string, B)>
    requires |outputs| == |tables|
    decreases |tables|
  {
    if tables == [] then [] else Tagged(tables[0].0, outputs[0]) + Scan(tables[1..], outputs[1..])
  }

  /** How many batches the scanning method produced over all tables. */
  function BatchCount<B>(outputs: seq<seq<B>>): nat
  {
    if outputs == [] then 0 else |outputs[0]| + BatchCount(outputs[1..])
  }

  /** The stream has one pair per produced batch: `scan` drops and repeats
      nothing. */
  lemma {:induction false} ScanCount<B>(tables: seq<(string, int)>, outputs: seq<seq<B>>)
    requires |outputs| == |tables|
    ensures |Scan(tables, outputs)| == BatchCount(outputs)
    decreases |tables|
  {
    if tables != [] {
      ScanCount(tables[1..], outputs[1..]);
    }
  }

  /** Every produced batch appears in the stream with its table's name, and
      the stream holds nothing else: no table outside the configuration. */
  lemma {:induction false} ScanPairsExactly<B>(tables: seq<(string, int)>, outputs: seq<seq<B>>)
    requires |outputs| == |tables|
    ensures forall i, b :: 0 <= i < |tables| && b in outputs[i] ==> (tables[i].0, b) in Scan(tables, outputs)
    ensures forall p :: p in Scan(tables, outputs) ==>
      exists i :: 0 <= i < |tables| && p.0 == tables[i].0 && p.1 in outputs[i]
  {
    if tables != [] {
      var head := Tagged(tables[0].0, outputs[0]);
      var rest := Scan(tables[1..], outputs[1..]);
      ScanPairsExactly(tables[1..], outputs[1..]);
      assert Scan(tables, outputs) == head + rest;
      forall p | p in Scan(tables, outputs)
        ensures exists i :: 0 <= i < |tables| && p.0 == tables[i].0 && p.1 in outputs[i]
      {
        if p in head {
          var j :| 0 <= j < |head| && head[j] == p;
          assert p.0 == tables[0].0 && p.1 in outputs[0];
        } else {
          assert p in rest;
          var i :| 0 <= i < |tables[1..]| && p.0 == tables[1..][i].0 && p.1 in outputs[1..][i];
          assert p.0 == tables[i + 1].0 && p.1 in outputs[i + 1];
        }
      }
      forall i, b | 0 <= i < |tables| && b in outputs[i]
        ensures (tables[i].0, b) in Scan(tables, outputs)
      {
        if i == 0 {
          var j :| 0 <= j < |outputs[0]| && outputs[0][j] == b;
          assert head[j] == (tables[0].0, b);
        } else {
          assert tables[1..][i - 1] == tables[i] && outputs[1..][i - 1] == outputs[i];
        }
      }
    }
  }

  /** The stream of a configuration split in two is the stream of the first
      part followed by the stream of the second. */
  lemma {:induction false} ScanAppend<B>(t1: seq<(string, int)>, o1: seq<seq<B>>, t2: seq<(string, int)>, o2: seq<seq<B>>)
    requires |o1| == |t1| && |o2| == |t2|
    ensures Scan(t1 + t2, o1 + o2) == Scan(t1, o1) + Scan(t2, o2)
  {
    if t1 == [] {
      assert t1 + t2 == t2 && o1 + o2 == o2;
    } else {
      assert (t1 + t2)[1..] == t1[1..] + t2 && (o1 + o2)[1..] == o1[1..] + o2;
      ScanAppend(t1[1..], o1[1..], t2, o2);
    }
  }

  /** Each table contributes exactly its own batches, in the order they were
      produced: the stream is the per-table streams one after the other. */
  lemma {:induction false} ScanIsConcatenation<B>(tables: seq<(string, int)>, outputs: seq<seq<B>>, k: nat)
    requires |outputs| == |tables| && k < |tables|
    ensures Scan(tables, outputs) ==
      Scan(tables[..k], outputs[..k]) + Tagged(tables[k].0, outputs[k]) + Scan(tables[k + 1..], outputs[k + 1..])
  {
    assert tables == tables[..k] + tables[k..] && outputs == outputs[..k] + outputs[k..];
    ScanAppend(tables[..k], outputs[..k], tables[k..], outputs[k..]);
    assert tables[k..][1..] == tables[k + 1..] && outputs[k..][1..] == outputs[k + 1..];
  }

  predicate PositiveSizes(tables: seq<(string, int)>)
  {
    forall i :: 0 <= i < |tables| ==> tables[i].1 > 0
  }

  /** What a scan sees: the source tables keyed by qualified name, the source
      schema, and the checkpoint store's contents. */
  datatype Snapshot = Snapshot(
    db: map<TableName, seq<User>>,
    schemaFrom: string,
    entries: map<string, Entry>,
    minimum: Entry)

  function SourceRows(s: Snapshot, table: string): seq<User>
  {
    var q := Qualified(s.schemaFrom, table);
    if q in s.db then s.db[q] else []
  }

  function ReadWatermark(s: Snapshot, table: string): Entry
  {
    Lookup(s.entries, s.minimum, ReadKey(table))
  }

  /** The pages `fetchmany` delivers for the table's keyset query. */
  function TablePages(s: Snapshot, table: string, packSize: nat): (p: seq<Batch>)
    requires packSize > 0
    ensures forall i :: 0 <= i < |p| ==> 0 < |p[i]| <= packSize
  {
    Pages(Query(SourceRows(s, table), ReadWatermark(s, table)), packSize)
  }

  /** A batch `scan_table` yields for `table` holds between one and
      `packSize` rows in ascending (updated_at, id) order; each satisfies the
      WHERE clause for the watermark read under the hard-coded read key, hence
      lies lexicographically at or after it, and is a row of the source table;
      and no row of the query result left after the batch sorts before it. */
  lemma YieldedBatchProperties(s: Snapshot, table: string, packSize: nat, inFlight: bool, b: Batch)
    requires packSize > 0
    requires b in TableYield(TablePages(s, table, packSize), inFlight)
    ensures 0 < |b| <= packSize && Sorted(b)
    ensures var w := ReadWatermark(s, table);
      forall u :: u in b ==> Selects(w, u) && AtOrAfter(w, u) && u in SourceRows(s, table)
    ensures var q := Query(SourceRows(s, table), ReadWatermark(s, table));
      b == q[..|b|] && forall u, v :: u in b && v in q[|b|..] ==> RowLe(u, v)
  {
    var rows, w := SourceRows(s, table), ReadWatermark(s, table);
    PagesEmptyIff(Query(rows, w), packSize);
    FirstPageProperties(rows, w, packSize);
  }

  /** The truthiness test `not_processed_entities.get(table)`. */
  predicate InFlight(markers: map<string, Option<User>>, table: string)
  {
    table in markers && markers[table].Some?
  }

  /** What one run of `scan_table` yields when no batch is acknowledged
      while it runs: nothing if the table is in flight or the query is empty,
      otherwise the first page and nothing more, since the second page finds
      the marker the first one set. */
  function TableYield(pages: seq<Batch>, inFlight: bool): seq<Batch>
  {
    if pages == [] || inFlight then [] else [pages[0]]
  }

  /** A run of `scan_table` yields a prefix of the table's pages, at most one
      of them, and nothing exactly when the query is empty or the table is in
      flight. */
  lemma TableYieldIsFirstPage(pages: seq<Batch>, inFlight: bool)
    ensures var r := TableYield(pages, inFlight);
      && r <= pages && |r| <= 1
      && (r == [] <==> pages == [] || inFlight)
  {
  }

  /** The markers after a run of `scan_table` for `table` that yielded `out`. */
  function MarkAfter(markers: map<string, Option<User>>, table: string, out: seq<Batch>): map<string, Option<User>>
  {
    if out == [] || out[0] == [] then markers else markers[table := Some(Last(out[0]))]
  }

  /** A run of `scan_table` that yielded a batch leaves its table in flight
      with the batch's last row; one that yielded nothing changes no marker;
      either way, no other table's marker changes. */
  lemma MarkAfterFrame(markers: map<string, Option<User>>, table: string, out: seq<Batch>)
    ensures var r := MarkAfter(markers, table, out);
      && (out != [] && out[0] != [] ==> table in r && r[table] == Some(out[0][|out[0]| - 1]))
      && (out == [] || out[0] == [] ==> r == markers)
      && (forall t :: t != table ==> (t in r <==> t in markers))
      && (forall t :: t != table && t in markers ==> r[t] == markers[t])
  {
  }

  /** The per-table outputs of one `scan` over `tables`, each run of
      `scan_table` starting from the markers the earlier runs left. */
  function Outputs(tables: seq<(string, int)>, markers: map<string, Option<User>>, s: Snapshot): (outs: seq<seq<Batch>>)
    requires PositiveSizes(tables)
    ensures |outs| == |tables|
    decreases |tables|
  {
    if tables == [] then []
    else
      var out := TableYield(TablePages(s, tables[0].0, tables[0].1), InFlight(markers, tables[0].0));
      [out] + Outputs(tables[1..], MarkAfter(markers, tables[0].0, out), s)
  }

  /** The (table, batch) stream of one `scan` from the given markers. */
  function Stream(tables: seq<(string, int)>, markers: map<string, Option<User>>, s: Snapshot): seq<(string, Batch)>
    requires PositiveSizes(tables)
  {
    Scan(tables, Outputs(tables, markers, s))
  }

  /** `b` is the first page of the keyset query of some configured table
      named `table`, for the batch size configured for it. */
  predicate IsFirstPageOf(tables: seq<(string, int)>, s: Snapshot, table: string, b: Batch)
    requires PositiveSizes(tables)
  {
    exists i :: 0 <= i < |tables| && tables[i].0 == table && FirstPage(TablePages(s, table, tables[i].1), b)
  }

  predicate FirstPage(pages: seq<Batch>, b: Batch)
  {
    |pages| > 0 && b == pages[0]
  }

  /** The shape of a stream: a table appears at most once, only if it was not
      in flight when the scan began, and then with the first page of its
      keyset query for the batch size configured for it. */
  predicate Shaped(tables: seq<(string, int)>, markers: map<string, Option<User>>, s: Snapshot, r: seq<(string, Batch)>)
    requires PositiveSizes(tables)
  {
    && (forall k :: 0 <= k < |r| ==> !InFlight(markers, r[k].0))
    && (forall k :: 0 <= k < |r| ==> IsFirstPageOf(tables, s, r[k].0, r[k].1))
    && (forall j, k :: 0 <= j < k < |r| ==> r[j].0 != r[k].0)
  }

  lemma {:induction false} StreamShape(tables: seq<(string, int)>, markers: map<string, Option<User>>, s: Snapshot)
    requires PositiveSizes(tables)
    ensures Shaped(tables, markers, s, Stream(tables, markers, s))
  {
    if tables != [] {
      var t, n := tables[0].0, tables[0].1;
      var out := TableYield(TablePages(s, t, n), InFlight(markers, t));
      var m' := MarkAfter(markers, t, out);
      assert Outputs(tables, markers, s) == [out] + Outputs(tables[1..], m', s);
      var rest := Stream(tables[1..], m', s);
      StreamShape(tables[1..], m', s);
      assert Stream(tables, markers, s) == Tagged(t, out) + rest;
      ShapeCons(tables, markers, s, out, m', rest);
    }
  }

  /** A table's own output in front of a well-shaped stream of the remaining
      tables gives a well-shaped stream. */
  lemma ShapeCons(tables: seq<(string, int)>, markers: map<string, Option<User>>, s: Snapshot,
                  out: seq<Batch>, m': map<string, Option<User>>, rest: seq<(string, Batch)>)
    requires PositiveSizes(tables) && tables != []
    requires out == TableYield(TablePages(s, tables[0].0, tables[0].1), InFlight(markers, tables[0].0))
    requires m' == MarkAfter(markers, tables[0].0, out)
    requires Shaped(tables[1..], m', s, rest)
    ensures Shaped(tables, markers, s, Tagged(tables[0].0, out) + rest)
  {
    var r := Tagged(tables[0].0, out) + rest;
    ConsNotInFlight(tables[0].0, markers, out, m', rest);
    forall k | 0 <= k < |r|
      ensures IsFirstPageOf(tables, s, r[k].0, r[k].1)
    {
      if k < |out| {
        var pages := TablePages(s, tables[0].0, tables[0].1);
        assert r[k] == (tables[0].0, pages[0]);
        assert FirstPage(pages, pages[0]);
      } else {
        assert r[k] == rest[k - |out|];
        FirstPageOfTail(tables, s, r[k].0, r[k].1);
      }
    }
  }

  /** The in-flight and distinctness parts of `ShapeCons`. */
  lemma ConsNotInFlight(t: string, markers: map<string, Option<User>>, out: seq<Batch>,
                        m': map<string, Option<User>>, rest: seq<(string, Batch)>)
    requires |out| <= 1 && (out != [] ==> !InFlight(markers, t) && |out[0]| > 0)
    requires m' == MarkAfter(markers, t, out)
    requires forall k :: 0 <= k < |rest| ==> !InFlight(m', rest[k].0)
    requires forall j, k :: 0 <= j < k < |rest| ==> rest[j].0 != rest[k].0
    ensures var r := Tagged(t, out) + rest;
      && (forall k :: 0 <= k < |r| ==> !InFlight(markers, r[k].0))
      && (forall j, k :: 0 <= j < k < |r| ==> r[j].0 != r[k].0)
  {
    var head := Tagged(t, out);
    var r := head + rest;
    assert forall x :: InFlight(markers, x) ==> InFlight(m', x);
    if out != [] {
      assert InFlight(m', t);
    }
    forall k | 0 <= k < |r|
      ensures !InFlight(markers, r[k].0)
    {
      if k >= |head| {
        assert r[k] == rest[k - |head|];
      }
    }
    forall j, k | 0 <= j < k < |r|
      ensures r[j].0 != r[k].0
    {
      if j < |head| {
        assert r[j].0 == t && InFlight(m', t);
        assert !InFlight(m', rest[k - |head|].0);
      } else {
        assert r[j] == rest[j - |head|] && r[k] == rest[k - |head|];
      }
    }
  }

  lemma FirstPageOfTail(tables: seq<(string, int)>, s: Snapshot, table: string, b: Batch)
    requires PositiveSizes(tables) && tables != []
    requires IsFirstPageOf(tables[1..], s, table, b)
    ensures IsFirstPageOf(tables, s, table, b)
  {
    var i :| 0 <= i < |tables[1..]| && tables[1..][i].0 == table && FirstPage(TablePages(s, table, tables[1..][i].1), b);
    assert tables[1..][i] == tables[i + 1];
  }

  /** The first configured table's output heads the stream; the rest of the
      stream starts from the markers that output leaves. */
  lemma StreamCons(tables: seq<(string, int)>, markers: map<string, Option<User>>, s: Snapshot)
    requires PositiveSizes(tables) && tables != []
    ensures var out := TableYield(TablePages(s, tables[0].0, tables[0].1), InFlight(markers, tables[0].0));
      Stream(tables, markers, s) == Tagged(tables[0].0, out) + Stream(tables[1..], MarkAfter(markers, tables[0].0, out), s)
  {
    var out := TableYield(TablePages(s, tables[0].0, tables[0].1), InFlight(markers, tables[0].0));
    assert Outputs(tables, markers, s) == [out] + Outputs(tables[1..], MarkAfter(markers, tables[0].0, out), s);
  }

  /** What the table `x`, scanned after the pairs `done`, adds to the
      stream. */
  function LastYield(x: (string, int), markers: map<string, Option<User>>, s: Snapshot, done: seq<(string, Batch)>): seq<(string, Batch)>
    requires x.1 > 0
  {
    Tagged(x.0, TableYield(TablePages(s, x.0, x.1), InFlight(MarkAll(markers, done), x.0)))
  }

  /** The stream of a configuration with one more table at the end: that
      table's run of `scan_table` starts from the markers the earlier tables'
      batches left. */
  lemma {:induction false} StreamSnoc(tables: seq<(string, int)>, x: (string, int), markers: map<string, Option<User>>, s: Snapshot)
    requires PositiveSizes(tables + [x])
    ensures PositiveSizes(tables) && x.1 > 0
    ensures Stream(tables + [x], markers, s) == Stream(tables, markers, s) + LastYield(x, markers, s, Stream(tables, markers, s))
    decreases |tables|
  {
    var tx := tables + [x];
    assert tx[|tables|] == x;
    assert forall i :: 0 <= i < |tables| ==> tables[i] == tx[i];
    if tables == [] {
      assert tx == [x] && tx[1..] == [];
      StreamCons(tx, markers, s);
    } else {
      var out := TableYield(TablePages(s, tables[0].0, tables[0].1), InFlight(markers, tables[0].0));
      assert tx[1..] == tables[1..] + [x];
      StreamSnoc(tables[1..], x, MarkAfter(markers, tables[0].0, out), s);
      StreamSnocStep(tables, x, markers, s);
    }
  }

  /** The inductive step of `StreamSnoc`. */
  lemma StreamSnocStep(tables: seq<(string, int)>, x: (string, int), markers: map<string, Option<User>>, s: Snapshot)
    requires PositiveSizes(tables + [x]) && PositiveSizes(tables) && x.1 > 0 && tables != []
    requires var m' := MarkAfter(markers, tables[0].0, TableYield(TablePages(s, tables[0].0, tables[0].1), InFlight(markers, tables[0].0)));
      Stream(tables[1..] + [x], m', s) == Stream(tables[1..], m', s) + LastYield(x, m', s, Stream(tables[1..], m', s))
    ensures Stream(tables + [x], markers, s) == Stream(tables, markers, s) + LastYield(x, markers, s, Stream(tables, markers, s))
  {
    var tx := tables + [x];
    var t := tables[0].0;
    var out := TableYield(TablePages(s, t, tables[0].1), InFlight(markers, t));
    var m' := MarkAfter(markers, t, out);
    var rest := Stream(tables[1..], m', s);
    assert tx[0] == tables[0] && tx[1..] == tables[1..] + [x];
    StreamCons(tx, markers, s);
    StreamCons(tables, markers, s);
    MarkAllFront(markers, t, out, rest);
    var last := LastYield(x, m', s, rest);
    assert Stream(tx, markers, s) == Tagged(t, out) + (rest + last);
    AppendAssociates(Tagged(t, out), rest, last);
  }

  lemma AppendAssociates<T>(a: seq<T>, b: seq<T>, c: seq<T>)
    ensures a + (b + c) == (a + b) + c
  {
  }

  /** Marking a table's output and then a stream of pairs is marking the
      output followed by the pairs. */
  lemma {:induction false} MarkAllFront(m0: map<string, Option<User>>, t: string, out: seq<Batch>, rest: seq<(string, Batch)>)
    requires |out| <= 1
    ensures MarkAll(m0, Tagged(t, out) + rest) == MarkAll(MarkAfter(m0, t, out), rest)
    decreases |rest|
  {
    var c := Tagged(t, out) + rest;
    if rest == [] {
      assert c == [] + Tagged(t, out);
      MarkAllStep(m0, [], t, out);
    } else {
      var k := |rest| - 1;
      assert c[..|c| - 1] == Tagged(t, out) + rest[..k] && c[|c| - 1] == rest[k];
      MarkAllFront(m0, t, out, rest[..k]);
    }
  }

  /** The stream of the first `a` configured tables is a prefix of the
      stream of the first `b`, for `a <= b`. */
  lemma {:induction false} StreamPrefixMono(tables: seq<(string, int)>, markers: map<string, Option<User>>, s: Snapshot, a: nat, b: nat)
    requires PositiveSizes(tables) && a <= b <= |tables|
    ensures PositiveSizes(tables[..a]) && PositiveSizes(tables[..b])
    ensures Stream(tables[..a], markers, s) <= Stream(tables[..b], markers, s)
    decreases b
  {
    if a < b {
      StreamPrefixMono(tables, markers, s, a, b - 1);
      assert tables[..b] == tables[..b - 1] + [tables[b - 1]];
      StreamSnoc(tables[..b - 1], tables[b - 1], markers, s);
    }
  }

  /** Every table of `pairs` is in flight with the last row of its batch. */
  predicate Marked(markers: map<string, Option<User>>, pairs: seq<(string, Batch)>)
  {
    forall p :: p in pairs ==> |p.1| > 0 && InFlight(markers, p.0) && markers[p.0].value == Last(p.1)
  }

  /** Every table absent from `pairs` has the marker it had in `m0`. */
  ghost predicate Untouched(markers: map<string, Option<User>>, m0: map<string, Option<User>>, pairs: seq<(string, Batch)>)
  {
    forall t :: (forall p :: p in pairs ==> p.0 != t) ==>
      (t in markers <==> t in m0) && (t in markers ==> markers[t] == m0[t])
  }

  /** The markers after the pairs' batches have been yielded in order, each
      leaving its table in flight with the batch's last row. */
  function MarkAll(m0: map<string, Option<User>>, pairs: seq<(string, Batch)>): map<string, Option<User>>
    decreases |pairs|
  {
    if pairs == [] then m0
    else
      var k := |pairs| - 1;
      MarkAfter(MarkAll(m0, pairs[..k]), pairs[k].0, [pairs[k].1])
  }

  /** One more run of `scan_table` marks what it yielded. */
  lemma MarkAllStep(m0: map<string, Option<User>>, prefix: seq<(string, Batch)>, t: string, out: seq<Batch>)
    requires |out| <= 1
    ensures MarkAll(m0, prefix + Tagged(t, out)) == MarkAfter(MarkAll(m0, prefix), t, out)
  {
    var c := prefix + Tagged(t, out);
    if out == [] {
      assert c == prefix;
    } else {
      assert c[..|c| - 1] == prefix && c[|c| - 1] == (t, out[0]);
    }
  }

  /** After the first `i` configured tables have been scanned, starting from
      markers `m0`, the pairs `prefix` that have come out are the stream of
      those tables, and the markers are those the pairs leave. */
  ghost predicate ScannedUpTo(tables: seq<(string, int)>, i: nat, s: Snapshot, m0: map<string, Option<User>>,
                              prefix: seq<(string, Batch)>, markers: map<string, Option<User>>)
    requires PositiveSizes(tables) && i <= |tables|
  {
    && PositiveSizes(tables[..i])
    && prefix == Stream(tables[..i], m0, s)
    && markers == MarkAll(m0, prefix)
  }

  /** One more run of `scan_table` keeps `ScannedUpTo`. */
  lemma ScanStep(tables: seq<(string, int)>, i: nat, s: Snapshot, m0: map<string, Option<User>>,
                 prefix: seq<(string, Batch)>, markers: map<string, Option<User>>, out: seq<Batch>)
    requires PositiveSizes(tables) && i < |tables|
    requires ScannedUpTo(tables, i, s, m0, prefix, markers)
    requires out == TableYield(TablePages(s, tables[i].0, tables[i].1), InFlight(markers, tables[i].0))
    ensures ScannedUpTo(tables, i + 1, s, m0, prefix + Tagged(tables[i].0, out), MarkAfter(markers, tables[i].0, out))
  {
    assert tables[..i + 1] == tables[..i] + [tables[i]];
    StreamSnoc(tables[..i], tables[i], m0, s);
    MarkAllStep(m0, prefix, tables[i].0, out);
  }

  predicate DistinctTables(pairs: seq<(string, Batch)>)
  {
    forall j, k :: 0 <= j < k < |pairs| ==> pairs[j].0 != pairs[k].0
  }

  /** When no table repeats and no batch is empty, every table of the pairs
      ends up in flight with the last row of its batch. */
  lemma {:induction false} MarkAllMarks(m0: map<string, Option<User>>, pairs: seq<(string, Batch)>)
    requires DistinctTables(pairs)
    requires forall k :: 0 <= k < |pairs| ==> |pairs[k].1| > 0
    ensures Marked(MarkAll(m0, pairs), pairs)
    decreases |pairs|
  {
    if pairs != [] {
      var k := |pairs| - 1;
      var prefix, t := pairs[..k], pairs[k].0;
      var before, after := MarkAll(m0, prefix), MarkAll(m0, pairs);
      MarkAllMarks(m0, prefix);
      assert after == before[t := Some(Last(pairs[k].1))];
      forall p | p in pairs
        ensures |p.1| > 0 && InFlight(after, p.0) && after[p.0].value == Last(p.1)
      {
        var j :| 0 <= j < |pairs| && pairs[j] == p;
        if j < k {
          assert prefix[j] == p && p.0 != t;
        }
      }
    }
  }

  /** Every table outside the pairs keeps the marker it had. */
  lemma {:induction false} MarkAllLeavesOthers(m0: map<string, Option<User>>, pairs: seq<(string, Batch)>)
    ensures Untouched(MarkAll(m0, pairs), m0, pairs)
    decreases |pairs|
  {
    if pairs != [] {
      var k := |pairs| - 1;
      var prefix := pairs[..k];
      MarkAllLeavesOthers(m0, prefix);
      forall x | (forall p :: p in pairs ==> p.0 != x)
        ensures var after := MarkAll(m0, pairs);
          (x in after <==> x in m0) && (x in after ==> after[x] == m0[x])
      {
        assert pairs[k] in pairs;
        assert forall p :: p in prefix ==> p in pairs;
      }
    }
  }

  /** After the part of a scan's stream that has been yielded, each of its
      tables is in flight with its batch's last row and every other table
      keeps its marker. */
  lemma StreamPrefixInFlight(tables: seq<(string, int)>, m0: map<string, Option<User>>, s: Snapshot, c: seq<(string, Batch)>)
    requires PositiveSizes(tables)
    requires c <= Stream(tables, m0, s)
    ensures Marked(MarkAll(m0, c), c) && Untouched(MarkAll(m0, c), m0, c)
  {
    StreamShape(tables, m0, s);
    ShapedPrefixInFlight(tables, m0, s, Stream(tables, m0, s), c);
  }

  lemma ShapedPrefixInFlight(tables: seq<(string, int)>, m0: map<string, Option<User>>, s: Snapshot,
                             r: seq<(string, Batch)>, c: seq<(string, Batch)>)
    requires PositiveSizes(tables)
    requires Shaped(tables, m0, s, r) && c <= r
    ensures Marked(MarkAll(m0, c), c) && Untouched(MarkAll(m0, c), m0, c)
  {
    assert c == r[..|c|];
    forall j, k | 0 <= j < k < |c|
      ensures c[j].0 != c[k].0
    {
      assert c[j] == r[j] && c[k] == r[k];
    }
    forall k | 0 <= k < |c|
      ensures |c[k].1| > 0
    {
      assert c[k] == r[k];
      FirstPageIsNotEmpty(tables, s, r[k].0, r[k].1);
    }
    MarkAllMarks(m0, c);
    MarkAllLeavesOthers(m0, c);
  }

  lemma FirstPageIsNotEmpty(tables: seq<(string, int)>, s: Snapshot, table: string, b: Batch)
    requires PositiveSizes(tables)
    requires IsFirstPageOf(tables, s, table, b)
    ensures |b| > 0
  {
    var i :| 0 <= i < |tables| && tables[i].0 == table && FirstPage(TablePages(s, table, tables[i].1), b);
  }

  class Producer {
    const store: CheckpointStore
    const schemaFrom: string
    /** `not_processed_entities`: per table, the last row of the batch yielded
        and not yet acknowledged by `set_state`. */
    var markers: map<string, Option<User>>

    /** `Producer.__init__`: no table has a marker. */
    constructor(store: CheckpointStore, schemaFrom: string)
      ensures this.store == store && this.schemaFrom == schemaFrom
      ensures markers == map[]
      ensures forall t :: !InFlight(markers, t)
    {
      this.store := store;
      this.schemaFrom := schemaFrom;
      markers := map[];
    }

    function View(db: map<TableName, seq<User>>): Snapshot
      reads store
    {
      Snapshot(db, schemaFrom, store.entries, store.minimum)
    }

    /** `set_state`: acknowledges the table's in-flight batch by storing its
        last row's watermark under `index_name:table`, then clears the marker.
        Other tables' markers and other checkpoint keys are unchanged. */
    method SetState(table: string, indexName: string)
      requires InFlight(markers, table)
      modifies this, store
      ensures store.entries == old(store.entries)[WriteKey(indexName, table) := WatermarkOf(old(markers[table].value))]
      ensures markers == old(markers)[table := None]
      ensures !InFlight(markers, table)
      ensures forall t :: t != table ==> InFlight(markers, t) == old(InFlight(markers, t))
    {
      var entity := markers[table].value;
      store.Set(WriteKey(indexName, table), WatermarkOf(entity));
      markers := markers[table := None];
    }

    /** `scan_table`, run to completion with no acknowledgement in between:
        reads the watermark under the hard-coded read key, walks the pages of
        the keyset query, stops at the first page that finds the table in
        flight, and otherwise marks the page's last row and yields the page. */
    method ScanTable(table: string, packSize: nat, db: map<TableName, seq<User>>) returns (batches: seq<Batch>)
      requires packSize > 0
      modifies this
      ensures batches == TableYield(TablePages(View(db), table, packSize), old(InFlight(markers, table)))
      ensures |batches| <= 1
      ensures old(InFlight(markers, table)) ==> batches == []
      ensures batches != [] ==> |batches[0]| > 0 && markers == old(markers)[table := Some(Last(batches[0]))]
      ensures batches == [] ==> markers == old(markers)
      ensures markers == MarkAfter(old(markers), table, batches)
      ensures View(db) == old(View(db))
    {
      var pages := TablePages(View(db), table, packSize);
      ghost var inFlight := InFlight(markers, table);
      ghost var m0 := markers;
      batches := [];
      var i := 0;
      while i < |pages|
        invariant 0 <= i <= |pages| && i <= 1
        invariant i == 0 ==> batches == [] && markers == m0
        invariant i == 1 ==> !inFlight && batches == [pages[0]] && markers == m0[table := Some(Last(pages[0]))]
      {
        var rows := pages[i];
        if InFlight(markers, table) {
          return;
        }
        markers := markers[table := Some(rows[|rows| - 1])];
        batches := batches + [rows];
        i := i + 1;
      }
    }

    /** `scan_table` for the `i`-th configured table, as one step of
        `Producer.scan`: it yields at most one batch, which extends the pairs
        scanned so far. */
    method ScanNext(tables: seq<(string, int)>, i: nat, db: map<TableName, seq<User>>,
                    ghost s: Snapshot, ghost m0: map<string, Option<User>>, ghost prefix: seq<(string, Batch)>)
      returns (out: seq<Batch>)
      requires PositiveSizes(tables) && i < |tables|
      requires View(db) == s && ScannedUpTo(tables, i, s, m0, prefix, markers)
      modifies this
      ensures |out| <= 1
      ensures View(db) == s && ScannedUpTo(tables, i + 1, s, m0, prefix + Tagged(tables[i].0, out), markers)
    {
      ghost var before := markers;
      out := ScanTable(tables[i].0, tables[i].1, db);
      ScanStep(tables, i, s, m0, prefix, before, out);
    }

    /** `Producer.scan`: runs `scan_table` for each configured table in order
        and flattens the results with `scan`. Afterwards every table that
        yielded is in flight with its batch's last row, and every other table
        keeps its marker. */
    method ScanAll(tables: seq<(string, int)>, db: map<TableName, seq<User>>) returns (stream: seq<(string, Batch)>)
      requires PositiveSizes(tables)
      modifies this
      ensures stream == Stream(tables, old(markers), View(db))
      ensures markers == MarkAll(old(markers), stream)
      ensures Marked(markers, stream) && Untouched(markers, old(markers), stream)
    {
      ghost var m0 := markers;
      ghost var s := View(db);
      stream := [];
      var i := 0;
      while i < |tables|
        invariant 0 <= i <= |tables|
        invariant View(db) == s
        invariant ScannedUpTo(tables, i, s, m0, stream, markers)
      {
        var out := ScanNext(tables, i, db, s, m0, stream);
        stream := stream + Tagged(tables[i].0, out);
        i := i + 1;
      }
      assert tables[..i] == tables;
      StreamPrefixInFlight(tables, m0, s, stream);
    }
  }
}
