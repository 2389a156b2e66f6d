/** The pass orchestrator (src/load_data.py): `ExtractionManager.execute_etl`,
    which drains the scanner and hands each batch to the loader, swallowing
    a domain `Error` raised by the load; the per-pass construction in
    `ExtractionUsersManager`; and `transfer`, which repeats passes until one
    raises. */
module LoadData {
  import opened Records
  import opened Checkpoints
  import opened Producers
  import opened Loaders

  /** How a pass ends: it drains the stream, or an exception leaves it: one
      from the load other than the domain `Error`, or any one from the
      scanner, `Error` included. */
  datatype Outcome = Finished | Raised

  /** How the `k`-th load attempt of a pass ends; attempts past the given
      faults succeed. */
  function FaultAt(faults: seq<Fault>, k: nat): Fault
  {
    if k < |faults| then faults[k] else Succeeds
  }

  /** The first of the first `n` load attempts that raises something other
      than `Error`, or `n` when none does. */
  function FirstOther(faults: seq<Fault>, n: nat): nat
    decreases n
  {
    if n == 0 then 0
    else
      var r := FirstOther(faults, n - 1);
      if r < n - 1 then r
      else if FaultAt(faults, n - 1) == OtherError then n - 1
      else n
  }

  /** `FirstOther` is the least index below `n` of an attempt raising
      something other than `Error`, or `n`. */
  lemma {:induction false} FirstOtherIsFirst(faults: seq<Fault>, n: nat)
    ensures var r := FirstOther(faults, n);
      && r <= n
      && (forall j :: 0 <= j < r ==> FaultAt(faults, j) != OtherError)
      && (r < n ==> FaultAt(faults, r) == OtherError)
    decreases n
  {
    if n > 0 {
      FirstOtherIsFirst(faults, n - 1);
    }
  }

  /** How many of a stream of `n` pairs reach `load`: all of them, or those
      up to and including the first attempt that raises something other than
      `Error`, which is the only such attempt among them. */
  function Attempted(n: nat, faults: seq<Fault>): nat
  {
    var r := FirstOther(faults, n);
    if r < n then r + 1 else n
  }

  lemma AttemptedCount(n: nat, faults: seq<Fault>)
    ensures var a := Attempted(n, faults);
      && a <= n
      && (a < n ==> a > 0 && FaultAt(faults, a - 1) == OtherError)
      && (forall j :: 0 <= j < a && FaultAt(faults, j) == OtherError ==> j == a - 1)
      && ((forall j :: 0 <= j < n ==> FaultAt(faults, j) != OtherError) ==> a == n)
  {
    FirstOtherIsFirst(faults, n);
  }

  /** How the loads of a pass over `n` pairs end, the scanner aside. */
  function PassOutcome(n: nat, faults: seq<Fault>): Outcome
  {
    if FirstOther(faults, n) < n then Raised else Finished
  }

  /** The loads of a pass raise exactly when one of its attempts raises
      something other than `Error`; a domain `Error` from `load` never ends
      the pass. */
  lemma PassOutcomeRaisedIff(n: nat, faults: seq<Fault>)
    ensures PassOutcome(n, faults) == Raised <==> exists j :: 0 <= j < n && FaultAt(faults, j) == OtherError
  {
    FirstOtherIsFirst(faults, n);
  }

  /** The statements a sequence of `(table, batch)` pairs sends, one per pair,
      in the same order. */
  function Statements(schemaTo: string, pairs: seq<(string, Batch)>): seq<Statement>
    decreases |pairs|
  {
    if pairs == [] then []
    else
      var k := |pairs| - 1;
      Statements(schemaTo, pairs[..k]) + [UpsertStatement(schemaTo, pairs[k].0, pairs[k].1)]
  }

  /** `execute_etl` sends one statement per pair it hands to `load`, in the
      order of the pairs, each the upsert of that pair's batch into that
      pair's table. */
  lemma {:induction false} OneStatementPerPair(schemaTo: string, pairs: seq<(string, Batch)>)
    ensures |Statements(schemaTo, pairs)| == |pairs|
    ensures forall i :: 0 <= i < |pairs| ==>
      Statements(schemaTo, pairs)[i] == UpsertStatement(schemaTo, pairs[i].0, pairs[i].1)
    decreases |pairs|
  {
    if pairs != [] {
      OneStatementPerPair(schemaTo, pairs[..|pairs| - 1]);
    }
  }

  /** The destination after the pairs have gone to `load` in order, the `k`-th
      attempt ending as `FaultAt(faults, k)`. */
  function LoadAll(rows: Rows, schemaTo: string, pairs: seq<(string, Batch)>, faults: seq<Fault>): Rows
    decreases |pairs|
  {
    if pairs == [] then rows
    else
      var k := |pairs| - 1;
      var prev := LoadAll(rows, schemaTo, pairs[..k], faults);
      if FaultAt(faults, k) == Succeeds then Execute(prev, UpsertStatement(schemaTo, pairs[k].0, pairs[k].1)) else prev
  }

  /** The pairs whose load attempt succeeds, in order. */
  function Succeeded(pairs: seq<(string, Batch)>, faults: seq<Fault>): seq<(string, Batch)>
    decreases |pairs|
  {
    if pairs == [] then []
    else
      var k := |pairs| - 1;
      Succeeded(pairs[..k], faults) + if FaultAt(faults, k) == Succeeds then [pairs[k]] else []
  }

  /** Only pairs of the pass are counted as loaded. */
  lemma {:induction false} SucceededArePairs(pairs: seq<(string, Batch)>, faults: seq<Fault>)
    ensures forall p :: p in Succeeded(pairs, faults) ==> p in pairs
    decreases |pairs|
  {
    if pairs != [] {
      var k := |pairs| - 1;
      SucceededArePairs(pairs[..k], faults);
      forall p | p in Succeeded(pairs, faults)
        ensures p in pairs
      {
        if p in Succeeded(pairs[..k], faults) {
          assert p in pairs[..k];
        }
      }
    }
  }

  /** The destination after every pair has been loaded without failure. */
  function ApplyAll(rows: Rows, schemaTo: string, pairs: seq<(string, Batch)>): Rows
    decreases |pairs|
  {
    if pairs == [] then rows
    else
      var k := |pairs| - 1;
      Execute(ApplyAll(rows, schemaTo, pairs[..k]), UpsertStatement(schemaTo, pairs[k].0, pairs[k].1))
  }

  /** The rows the pairs leave behind, keyed by qualified table and id; a later
      pair overrides an earlier one. */
  function WrittenAll(schemaTo: string, pairs: seq<(string, Batch)>): Rows
    decreases |pairs|
  {
    if pairs == [] then map[]
    else
      var k := |pairs| - 1;
      WrittenAll(schemaTo, pairs[..k]) + Written(Qualified(schemaTo, pairs[k].0), pairs[k].1)
  }

  /** Fault isolation: a pair whose load fails contributes nothing and every
      other pair is applied as if the failures had not happened. */
  lemma {:induction false} FailedLoadsAreSkipped(rows: Rows, schemaTo: string, pairs: seq<(string, Batch)>, faults: seq<Fault>)
    ensures LoadAll(rows, schemaTo, pairs, faults) == ApplyAll(rows, schemaTo, Succeeded(pairs, faults))
    decreases |pairs|
  {
    if pairs != [] {
      var k := |pairs| - 1;
      var prev := Succeeded(pairs[..k], faults);
      FailedLoadsAreSkipped(rows, schemaTo, pairs[..k], faults);
      var before := LoadAll(rows, schemaTo, pairs[..k], faults);
      var last := UpsertStatement(schemaTo, pairs[k].0, pairs[k].1);
      if FaultAt(faults, k) == Succeeds {
        assert Succeeded(pairs, faults) == prev + [pairs[k]];
        ApplyAllSnoc(rows, schemaTo, prev, pairs[k]);
        assert LoadAll(rows, schemaTo, pairs, faults) == Execute(before, last);
      } else {
        assert Succeeded(pairs, faults) == prev;
        assert LoadAll(rows, schemaTo, pairs, faults) == before;
      }
    }
  }

  /** Applying one more pair executes its upsert on what the earlier pairs left. */
  lemma ApplyAllSnoc(rows: Rows, schemaTo: string, pairs: seq<(string, Batch)>, p: (string, Batch))
    ensures ApplyAll(rows, schemaTo, pairs + [p]) == Execute(ApplyAll(rows, schemaTo, pairs), UpsertStatement(schemaTo, p.0, p.1))
  {
    assert (pairs + [p])[..|pairs|] == pairs;
  }

  /** On well-keyed rows, loading pairs in order overwrites each key the pairs
      write with the row of the last pair that writes it, and keeps the rest. */
  lemma {:induction false} ApplyAllIsOverwrite(rows: Rows, schemaTo: string, pairs: seq<(string, Batch)>)
    requires WellKeyed(rows)
    ensures ApplyAll(rows, schemaTo, pairs) == rows + WrittenAll(schemaTo, pairs)
    ensures WellKeyed(ApplyAll(rows, schemaTo, pairs))
    decreases |pairs|
  {
    if pairs != [] {
      var k := |pairs| - 1;
      var prev := ApplyAll(rows, schemaTo, pairs[..k]);
      var w := Written(Qualified(schemaTo, pairs[k].0), pairs[k].1);
      ApplyAllIsOverwrite(rows, schemaTo, pairs[..k]);
      UpsertIsOverwrite(prev, schemaTo, pairs[k].0, pairs[k].1);
      UnionAssociates(rows, WrittenAll(schemaTo, pairs[..k]), w);
      assert ApplyAll(rows, schemaTo, pairs) == prev + w;
      assert WrittenAll(schemaTo, pairs) == WrittenAll(schemaTo, pairs[..k]) + w;
    }
  }

  /** Loading the same pairs a second time leaves the destination as the first
      time did. */
  lemma ReloadChangesNothing(rows: Rows, schemaTo: string, pairs: seq<(string, Batch)>)
    requires WellKeyed(rows)
    ensures ApplyAll(ApplyAll(rows, schemaTo, pairs), schemaTo, pairs) == ApplyAll(rows, schemaTo, pairs)
  {
    var once := ApplyAll(rows, schemaTo, pairs);
    ApplyAllIsOverwrite(rows, schemaTo, pairs);
    ApplyAllIsOverwrite(once, schemaTo, pairs);
    assert (rows + WrittenAll(schemaTo, pairs)) + WrittenAll(schemaTo, pairs) == rows + WrittenAll(schemaTo, pairs);
  }

  /** The part of a pass's stream that reaches `load`. With no index name,
      the first line of `execute_etl` raises `AttributeError` before the
      scanner starts, and nothing does. */
  function Consumed(indexName: Option<string>, stream: seq<(string, Batch)>, faults: seq<Fault>): (c: seq<(string, Batch)>)
    ensures c <= stream
    ensures indexName.None? ==> c == []
    ensures forall j :: 0 <= j < |c| - 1 ==> FaultAt(faults, j) != OtherError
    ensures indexName.Some? && |c| < |stream| ==> |c| > 0 && FaultAt(faults, |c| - 1) == OtherError
    ensures indexName.Some? && (forall j :: 0 <= j < |stream| ==> FaultAt(faults, j) != OtherError) ==> c == stream
  {
    if indexName.None? then []
    else
      AttemptedCount(|stream|, faults);
      stream[..Attempted(|stream|, faults)]
  }

  /** Where the scanner raises in a pass, if it does: `Some(k)` when the `for`
      loop of `execute_etl`, advancing the scanner once the pairs of the
      first `k` configured tables have been handed out, gets an exception
      from reading the next table's watermark, fetching a page or building
      its rows. `Some(k)` past the configuration never happens. */
  predicate ScanRaises(tables: seq<(string, int)>, scanFault: Option<nat>)
  {
    scanFault.Some? && scanFault.value <= |tables|
  }

  /** How many configured tables the scanner gets through in a pass. */
  function Cut(tables: seq<(string, int)>, scanFault: Option<nat>): (k: nat)
    ensures k <= |tables|
  {
    if ScanRaises(tables, scanFault) then scanFault.value else |tables|
  }

  /** The pairs the scanner hands out in a pass. */
  function PassStream(tables: seq<(string, int)>, markers: map<string, Option<User>>, s: Snapshot,
                      scanFault: Option<nat>): seq<(string, Batch)>
    requires PositiveSizes(tables)
  {
    var k := Cut(tables, scanFault);
    StreamPrefixMono(tables, markers, s, k, k);
    Stream(tables[..k], markers, s)
  }

  /** A scanner that raises hands out a prefix of the stream: the pairs of
      the tables it got through. One that does not hands out all of it. */
  lemma ScanFaultTruncates(tables: seq<(string, int)>, markers: map<string, Option<User>>, s: Snapshot, scanFault: Option<nat>)
    requires PositiveSizes(tables)
    ensures PassStream(tables, markers, s, scanFault) <= Stream(tables, markers, s)
    ensures !ScanRaises(tables, scanFault) ==> PassStream(tables, markers, s, scanFault) == Stream(tables, markers, s)
  {
    StreamPrefixMono(tables, markers, s, Cut(tables, scanFault), |tables|);
    assert tables[..|tables|] == tables;
  }

  /** How a pass over `stream` ends when its load attempts end as `faults`
      and the scanner raises after the stream or not. */
  function PassEnd(stream: seq<(string, Batch)>, faults: seq<Fault>, scanRaises: bool): Outcome
  {
    if scanRaises then Raised else PassOutcome(|stream|, faults)
  }

  /** A pass raises exactly when the scanner raises or a load attempt raises
      something other than `Error`: the scanner runs outside the `try`, so
      even a domain `Error` from it ends the pass. */
  lemma PassEndRaisedIff(stream: seq<(string, Batch)>, faults: seq<Fault>, scanRaises: bool)
    ensures PassEnd(stream, faults, scanRaises) == Raised <==>
      scanRaises || exists j :: 0 <= j < |stream| && FaultAt(faults, j) == OtherError
  {
    PassOutcomeRaisedIff(|stream|, faults);
  }

  function PassOutcomeFor(indexName: Option<string>, stream: seq<(string, Batch)>, faults: seq<Fault>, scanRaises: bool): Outcome
  {
    if indexName.None? then Raised else PassEnd(stream, faults, scanRaises)
  }

  /** Without an index name a pass raises and loads nothing, whatever the
      stream; with one, a one-row batch of `user` does land in the
      destination. */
  lemma UnassignedIndexNameLoadsNothing(rows: Rows, schemaTo: string, name: string, u: User)
    requires WellKeyed(rows)
    ensures forall stream, faults, scanRaises :: PassOutcomeFor(None, stream, faults, scanRaises) == Raised
    ensures forall stream, faults :: LoadAll(rows, schemaTo, Consumed(None, stream, faults), faults) == rows
    ensures var stream := [("user", [u])];
      var after := LoadAll(rows, schemaTo, Consumed(Some(name), stream, []), []);
      var key := RowKey(Qualified(schemaTo, "user"), u.id);
      && PassOutcomeFor(Some(name), stream, [], false) == Finished
      && key in after && after[key] == u
  {
    forall stream, faults
      ensures LoadAll(rows, schemaTo, Consumed(None, stream, faults), faults) == rows
    {
      assert Consumed(None, stream, faults) == [];
    }
    var stream := [("user", [u])];
    assert Attempted(1, []) == 1;
    assert Consumed(Some(name), stream, []) == stream;
    assert stream[..0] == [];
    UpsertIsOverwrite(rows, schemaTo, "user", [u]);
    assert Written(Qualified(schemaTo, "user"), [u]) == map[RowKey(Qualified(schemaTo, "user"), u.id) := u];
  }

  /** The outcome of a run of passes: the destination's rows, the statements
      sent, how many passes ran and how the last one ended. */
  datatype Run = Run(rows: Rows, log: seq<Statement>, ran: nat, outcome: Outcome)

  /** The faults of one pass: where its scanner raises, if it does, and how
      its load attempts end. */
  datatype PassFaults = PassFaults(scan: Option<nat>, loads: seq<Fault>)

  /** How a pass of a fresh manager, with no table in flight, ends. */
  function PassResult(tables: seq<(string, int)>, s: Snapshot, p: PassFaults): Outcome
    requires PositiveSizes(tables)
  {
    PassEnd(PassStream(tables, map[], s, p.scan), p.loads, ScanRaises(tables, p.scan))
  }

  /** `transfer` over a bounded number of passes, each a fresh manager with no
      table in flight over the same source and checkpoints; it stops after
      the first pass that raises. */
  function RunPasses(rows: Rows, log: seq<Statement>, schemaTo: string, tables: seq<(string, int)>, s: Snapshot,
                     passes: seq<PassFaults>): Run
    requires PositiveSizes(tables)
    decreases |passes|
  {
    if passes == [] then Run(rows, log, 0, Finished)
    else
      var p := passes[0];
      var stream := PassStream(tables, map[], s, p.scan);
      var c := stream[..Attempted(|stream|, p.loads)];
      var rows' := LoadAll(rows, schemaTo, c, p.loads);
      var log' := log + Statements(schemaTo, c);
      if PassResult(tables, s, p) == Raised then Run(rows', log', 1, Raised)
      else
        var r := RunPasses(rows', log', schemaTo, tables, s, passes[1..]);
        r.(ran := r.ran + 1)
  }

  /** The passes run are exactly those up to and including the first that
      raises, or all of them; the run raises exactly when one of them does. */
  lemma {:induction false} TransferStopsAtFirstRaise(rows: Rows, log: seq<Statement>, schemaTo: string,
                                                     tables: seq<(string, int)>, s: Snapshot, passes: seq<PassFaults>)
    requires PositiveSizes(tables)
    ensures var r := RunPasses(rows, log, schemaTo, tables, s, passes);
      && r.ran <= |passes|
      && (forall i :: 0 <= i < r.ran - 1 ==> PassResult(tables, s, passes[i]) == Finished)
      && (r.outcome == Raised <==> r.ran > 0 && PassResult(tables, s, passes[r.ran - 1]) == Raised)
      && (r.outcome == Finished ==> r.ran == |passes|)
    decreases |passes|
  {
    if passes != [] && PassResult(tables, s, passes[0]) == Finished {
      var p := passes[0];
      var stream := PassStream(tables, map[], s, p.scan);
      var c := stream[..Attempted(|stream|, p.loads)];
      var rows' := LoadAll(rows, schemaTo, c, p.loads);
      var log' := log + Statements(schemaTo, c);
      TransferStopsAtFirstRaise(rows', log', schemaTo, tables, s, passes[1..]);
      var r := RunPasses(rows', log', schemaTo, tables, s, passes[1..]);
      assert RunPasses(rows, log, schemaTo, tables, s, passes) == r.(ran := r.ran + 1);
      forall i | 0 <= i < r.ran
        ensures PassResult(tables, s, passes[i]) == Finished
      {
        if i > 0 {
          assert passes[i] == passes[1..][i - 1];
        }
      }
      if r.ran > 0 {
        assert passes[r.ran] == passes[1..][r.ran - 1];
      }
    }
  }

  /** A pass in which every load attempt succeeds. */
  predicate Clean(n: nat, faults: seq<Fault>)
  {
    forall j :: 0 <= j < n ==> FaultAt(faults, j) == Succeeds
  }

  /** A pass in which the scanner gets through every table and every load
      attempt succeeds. */
  predicate CleanPass(tables: seq<(string, int)>, s: Snapshot, p: PassFaults)
    requires PositiveSizes(tables)
  {
    !ScanRaises(tables, p.scan) && Clean(|Stream(tables, map[], s)|, p.loads)
  }

  /** Passes without failures over unchanged sources converge: however many
      of them run, the destination is what the first one left. */
  lemma {:induction false} CleanPassesConverge(rows: Rows, log: seq<Statement>, schemaTo: string,
                                               tables: seq<(string, int)>, s: Snapshot, passes: seq<PassFaults>)
    requires PositiveSizes(tables)
    requires WellKeyed(rows)
    requires forall i :: 0 <= i < |passes| ==> CleanPass(tables, s, passes[i])
    ensures var r := RunPasses(rows, log, schemaTo, tables, s, passes);
      && r.outcome == Finished && r.ran == |passes|
      && r.rows == if passes == [] then rows else ApplyAll(rows, schemaTo, Stream(tables, map[], s))
    decreases |passes|
  {
    if passes != [] {
      var f := passes[0].loads;
      var stream := Stream(tables, map[], s);
      ScanFaultTruncates(tables, map[], s, passes[0].scan);
      AttemptedCount(|stream|, f);
      PassOutcomeRaisedIff(|stream|, f);
      assert stream[..|stream|] == stream;
      CleanLoadIsApply(rows, schemaTo, stream, f);
      var once := ApplyAll(rows, schemaTo, stream);
      ApplyAllIsOverwrite(rows, schemaTo, stream);
      CleanPassesConverge(once, log + Statements(schemaTo, stream), schemaTo, tables, s, passes[1..]);
      if |passes| > 1 {
        ReloadChangesNothing(rows, schemaTo, stream);
      }
    }
  }

  /** In a pass without failures every pair is loaded. */
  lemma {:induction false} CleanLoadIsApply(rows: Rows, schemaTo: string, pairs: seq<(string, Batch)>, faults: seq<Fault>)
    requires Clean(|pairs|, faults)
    ensures LoadAll(rows, schemaTo, pairs, faults) == ApplyAll(rows, schemaTo, pairs)
    decreases |pairs|
  {
    if pairs != [] {
      var k := |pairs| - 1;
      CleanLoadIsApply(rows, schemaTo, pairs[..k], faults);
    }
  }

  class ExtractionManager {
    const producer: Producer
    const loader: Loader
    /** `index_name`: declared on the class, never assigned by
        `ExtractionUsersManager`. */
    const indexName: Option<string>

    /** `ExtractionUsersManager.__init__` as written: a fresh producer over the
        checkpoint store and a loader over the destination; `index_name` is
        left unassigned. */
    constructor(store: CheckpointStore, dest: Destination, schemaFrom: string, schemaTo: string)
      ensures fresh(producer) && fresh(loader)
      ensures producer.store == store && producer.schemaFrom == schemaFrom && producer.markers == map[]
      ensures loader.dest == dest && loader.schemaTo == schemaTo
      ensures indexName == None
    {
      producer := new Producer(store, schemaFrom);
      loader := new Loader(dest, schemaTo);
      indexName := None;
    }

    /** The same construction with `index_name` assigned. */
    constructor WithIndexName(store: CheckpointStore, dest: Destination, schemaFrom: string, schemaTo: string, name: string)
      ensures fresh(producer) && fresh(loader)
      ensures producer.store == store && producer.schemaFrom == schemaFrom && producer.markers == map[]
      ensures loader.dest == dest && loader.schemaTo == schemaTo
      ensures indexName == Some(name)
    {
      producer := new Producer(store, schemaFrom);
      loader := new Loader(dest, schemaTo);
      indexName := Some(name);
    }

    /** `execute_etl`: every pair the scanner produces goes to `load` once, in
        order, until an attempt raises something other than `Error` or the
        scanner raises; a domain `Error` from `load` skips only its own pair.
        No checkpoint is committed, and every table whose batch reached
        `load` stays in flight with that batch's last row. */
    method ExecuteEtl(tables: seq<(string, int)>, db: map<TableName, seq<User>>, scanFault: Option<nat>, faults: seq<Fault>)
      returns (outcome: Outcome)
      requires PositiveSizes(tables)
      modifies producer, loader.dest
      ensures var stream := PassStream(tables, old(producer.markers), old(producer.View(db)), scanFault);
        var c := Consumed(indexName, stream, faults);
        && outcome == PassOutcomeFor(indexName, stream, faults, ScanRaises(tables, scanFault))
        && loader.dest.rows == LoadAll(old(loader.dest.rows), loader.schemaTo, c, faults)
        && loader.dest.log == old(loader.dest.log) + Statements(loader.schemaTo, c)
        && producer.markers == MarkAll(old(producer.markers), c)
      ensures producer.store.entries == old(producer.store.entries)
    {
      if indexName.None? {
        return Raised;
      }
      outcome := DrainScanner(tables, db, scanFault, faults);
    }

    /** The `for` loop of `execute_etl`, once `index_name` has been read. */
    method DrainScanner(tables: seq<(string, int)>, db: map<TableName, seq<User>>, scanFault: Option<nat>, faults: seq<Fault>)
      returns (outcome: Outcome)
      requires PositiveSizes(tables)
      modifies producer, loader.dest
      ensures var stream := PassStream(tables, old(producer.markers), old(producer.View(db)), scanFault);
        var c := stream[..Attempted(|stream|, faults)];
        && outcome == PassEnd(stream, faults, ScanRaises(tables, scanFault))
        && Reached(loader.dest, old(loader.dest.rows), old(loader.dest.log), loader.schemaTo, c, faults)
        && producer.markers == MarkAll(old(producer.markers), c)
      ensures producer.store.entries == old(producer.store.entries)
    {
      ghost var s := producer.View(db);
      ghost var m0 := producer.markers;
      ghost var cut := Cut(tables, scanFault);
      ghost var stream := PassStream(tables, m0, s, scanFault);
      ghost var rows0, log0 := loader.dest.rows, loader.dest.log;
      ghost var consumed: seq<(string, Batch)> := [];
      ghost var stop := FirstOther(faults, |faults|);
      var attempts := 0;
      var i := 0;
      while i < |tables|
        invariant 0 <= i <= cut
        invariant producer.View(db) == s
        invariant ScannedUpTo(tables, i, s, m0, consumed, producer.markers)
        invariant attempts == |consumed| && (attempts <= stop || stop == |faults|)
        invariant Reached(loader.dest, rows0, log0, loader.schemaTo, consumed, faults)
      {
        if scanFault == Some(i) {
          FinishedPrefix(stream, consumed, faults);
          return Raised;
        }
        var raised: bool;
        raised, attempts, consumed := EtlTable(tables, i, db, faults, attempts, stop, consumed, s, m0, rows0, log0);
        if raised {
          StreamPrefixMono(tables, m0, s, i + 1, cut);
          assert consumed + stream[|consumed|..] == stream;
          RaisedPrefix(stream, consumed, stream[|consumed|..], faults);
          return Raised;
        }
        i := i + 1;
      }
      FinishedPrefix(stream, consumed, faults);
      if scanFault == Some(|tables|) {
        return Raised;
      }
      return Finished;
    }

    /** One iteration of the `for` loop of `execute_etl` that reaches the
        `i`-th configured table: the scanner runs `scan_table` for it, and what
        it yields goes to `load`. */
    method EtlTable(tables: seq<(string, int)>, i: nat, db: map<TableName, seq<User>>, faults: seq<Fault>,
                    attempts: nat, ghost stop: nat, ghost consumed: seq<(string, Batch)>, ghost s: Snapshot,
                    ghost m0: map<string, Option<User>>, ghost rows0: Rows, ghost log0: seq<Statement>)
      returns (raised: bool, attempts': nat, ghost consumed': seq<(string, Batch)>)
      requires PositiveSizes(tables) && i < |tables|
      requires stop == FirstOther(faults, |faults|)
      requires producer.View(db) == s
      requires ScannedUpTo(tables, i, s, m0, consumed, producer.markers)
      requires attempts == |consumed| && (attempts <= stop || stop == |faults|)
      requires Reached(loader.dest, rows0, log0, loader.schemaTo, consumed, faults)
      requires producer.markers == MarkAll(m0, consumed)
      modifies producer, loader.dest
      ensures producer.View(db) == s
      ensures ScannedUpTo(tables, i + 1, s, m0, consumed', producer.markers)
      ensures attempts' == |consumed'|
      ensures !raised ==> attempts' <= stop || stop == |faults|
      ensures raised ==> |consumed'| > 0 && |consumed'| - 1 == stop < |faults|
      ensures Reached(loader.dest, rows0, log0, loader.schemaTo, consumed', faults)
    {
      var batches := producer.ScanNext(tables, i, db, s, m0, consumed);
      var pairs := Tagged(tables[i].0, batches);
      raised, attempts' := LoadPairs(pairs, faults, attempts, stop, consumed, rows0, log0);
      assert attempts' - |consumed| == |pairs|;
      WholeSlice(pairs);
      consumed' := consumed + pairs;
    }

    /** The `for` loop of `execute_etl` over some pairs of the stream, the
        first of them the `start`-th load attempt of the pass: each pair goes to
        `load`; a domain `Error` moves on to the next pair, any other exception
        ends the loop. `done` are the pairs attempted before, from a destination
        that held `rows0` and had been sent `log0`. */
    method LoadPairs(pairs: seq<(string, Batch)>, faults: seq<Fault>, start: nat, ghost stop: nat,
                     ghost done: seq<(string, Batch)>, ghost rows0: Rows, ghost log0: seq<Statement>)
      returns (raised: bool, attempts: nat)
      requires stop == FirstOther(faults, |faults|)
      requires start == |done| && (start <= stop || stop == |faults|)
      requires Reached(loader.dest, rows0, log0, loader.schemaTo, done, faults)
      modifies loader.dest
      ensures start <= attempts <= start + |pairs|
      ensures Reached(loader.dest, rows0, log0, loader.schemaTo, done + pairs[..attempts - start], faults)
      ensures !raised ==> attempts == start + |pairs| && (attempts <= stop || stop == |faults|)
      ensures raised ==>
        attempts > start && attempts - 1 == stop < |faults|
    {
      attempts := start;
      var j := 0;
      ghost var seen := done;
      assert done + pairs[..0] == done;
      while j < |pairs|
        invariant 0 <= j <= |pairs| && attempts == start + j
        invariant seen == done + pairs[..j] && |seen| == attempts
        invariant attempts <= stop || stop == |faults|
        invariant Reached(loader.dest, rows0, log0, loader.schemaTo, seen, faults)
      {
        var status := LoadNext(pairs[j], faults, attempts, stop, seen, rows0, log0);
        PrefixStep(done, pairs, j);
        seen := seen + [pairs[j]];
        attempts := attempts + 1;
        j := j + 1;
        if status == OtherError {
          return true, attempts;
        }
      }
      raised := false;
    }

    /** The body of the `for` loop of `execute_etl`: the `k`-th attempt of the
        pass hands pair `p` to `load`. */
    method LoadNext(p: (string, Batch), faults: seq<Fault>, k: nat, ghost stop: nat, ghost seen: seq<(string, Batch)>,
                    ghost rows0: Rows, ghost log0: seq<Statement>)
      returns (status: Fault)
      requires stop == FirstOther(faults, |faults|) && (k <= stop || stop == |faults|)
      requires k == |seen|
      requires Reached(loader.dest, rows0, log0, loader.schemaTo, seen, faults)
      modifies loader.dest
      ensures status == FaultAt(faults, k)
      ensures status == OtherError <==> k == stop < |faults|
      ensures Reached(loader.dest, rows0, log0, loader.schemaTo, seen + [p], faults)
    {
      ghost var rows, log := loader.dest.rows, loader.dest.log;
      FirstOtherIsFirst(faults, |faults|);
      var fault := FaultAt(faults, k);
      status := loader.Load(p.0, p.1, fault);
      LoadStep(rows0, log0, loader.schemaTo, seen, p, faults, fault, rows, log, loader.dest.rows, loader.dest.log);
    }
  }

  /** The destination holds what the pairs `seen` leave behind when loaded
      from `rows0`, and has been sent their statements after `log0`. */
  ghost predicate Reached(d: Destination, rows0: Rows, log0: seq<Statement>, schemaTo: string,
                          seen: seq<(string, Batch)>, faults: seq<Fault>)
    reads d
  {
    d.rows == LoadAll(rows0, schemaTo, seen, faults) && d.log == log0 + Statements(schemaTo, seen)
  }

  lemma PrefixStep<T>(done: seq<T>, pairs: seq<T>, j: nat)
    requires j < |pairs|
    ensures done + pairs[..j + 1] == (done + pairs[..j]) + [pairs[j]]
  {
    assert pairs[..j + 1] == pairs[..j] + [pairs[j]];
  }

  lemma WholeSlice<T>(s: seq<T>)
    ensures s[..|s|] == s
  {
  }

  /** One more pair through `load`: its statement joins the log and, if it
      runs, the destination moves one step of `LoadAll`. */
  lemma LoadStep(rows0: Rows, log0: seq<Statement>, schemaTo: string, seen: seq<(string, Batch)>, p: (string, Batch),
                 faults: seq<Fault>, fault: Fault, rows: Rows, log: seq<Statement>, rows': Rows, log': seq<Statement>)
    requires fault == FaultAt(faults, |seen|)
    requires rows == LoadAll(rows0, schemaTo, seen, faults)
    requires log == log0 + Statements(schemaTo, seen)
    requires rows' == if fault == Succeeds then Execute(rows, UpsertStatement(schemaTo, p.0, p.1)) else rows
    requires log' == log + [UpsertStatement(schemaTo, p.0, p.1)]
    ensures rows' == LoadAll(rows0, schemaTo, seen + [p], faults)
    ensures log' == log0 + Statements(schemaTo, seen + [p])
  {
    assert (seen + [p])[..|seen|] == seen;
  }

  /** The first attempt among the first `n` that raises something other
      than `Error` is the first such attempt of the whole pass, if it comes
      before `n`. */
  lemma FirstOtherOfPrefix(faults: seq<Fault>, n: nat)
    ensures var stop := FirstOther(faults, |faults|);
      FirstOther(faults, n) == if stop < |faults| && stop < n then stop else n
  {
    var stop, r := FirstOther(faults, |faults|), FirstOther(faults, n);
    FirstOtherIsFirst(faults, |faults|);
    FirstOtherIsFirst(faults, n);
    if stop < |faults| && stop < n {
      assert FaultAt(faults, stop) == OtherError;
    } else {
      assert r < stop ==> FaultAt(faults, r) != OtherError;
    }
  }

  /** A pass that drains its stream has attempted all of it. */
  lemma FinishedPrefix(stream: seq<(string, Batch)>, consumed: seq<(string, Batch)>, faults: seq<Fault>)
    requires consumed == stream
    requires var stop := FirstOther(faults, |faults|); |consumed| <= stop || stop == |faults|
    ensures Attempted(|stream|, faults) == |stream| && stream[..|stream|] == consumed
    ensures PassOutcome(|stream|, faults) == Finished
  {
    FirstOtherOfPrefix(faults, |stream|);
  }

  /** A pass that stops at an attempt raising something other than `Error`
      has attempted exactly the pairs up to it. */
  lemma RaisedPrefix(stream: seq<(string, Batch)>, consumed: seq<(string, Batch)>, rest: seq<(string, Batch)>, faults: seq<Fault>)
    requires |consumed| > 0 && consumed + rest == stream
    requires |consumed| - 1 == FirstOther(faults, |faults|) < |faults|
    ensures Attempted(|stream|, faults) == |consumed| && stream[..|consumed|] == consumed
    ensures PassOutcome(|stream|, faults) == Raised
  {
    FirstOtherOfPrefix(faults, |stream|);
  }

  /** One pass of a fresh manager is one step of `RunPasses`. */
  lemma PassStep(rows: Rows, log: seq<Statement>, rows': Rows, log': seq<Statement>, outcome: Outcome,
                 schemaTo: string, tables: seq<(string, int)>, s: Snapshot, passes: seq<PassFaults>)
    requires PositiveSizes(tables) && passes != []
    requires var stream := PassStream(tables, map[], s, passes[0].scan);
      var c := stream[..Attempted(|stream|, passes[0].loads)];
      && outcome == PassResult(tables, s, passes[0])
      && rows' == LoadAll(rows, schemaTo, c, passes[0].loads)
      && log' == log + Statements(schemaTo, c)
    ensures outcome == Raised ==> RunPasses(rows, log, schemaTo, tables, s, passes) == Run(rows', log', 1, Raised)
    ensures outcome == Finished ==>
      var r := RunPasses(rows', log', schemaTo, tables, s, passes[1..]);
      RunPasses(rows, log, schemaTo, tables, s, passes) == r.(ran := r.ran + 1)
  {
  }

  /** One pass of `transfer`: a fresh manager with the index name assigned
      runs `execute_etl` over the configured tables. */
  method TransferPass(p: PassFaults, store: CheckpointStore, dest: Destination, schemaFrom: string,
                      schemaTo: string, indexName: string, tables: seq<(string, int)>, db: map<TableName, seq<User>>)
    returns (outcome: Outcome)
    requires PositiveSizes(tables)
    modifies dest
    ensures var s := Snapshot(db, schemaFrom, store.entries, store.minimum);
      var stream := PassStream(tables, map[], s, p.scan);
      var c := stream[..Attempted(|stream|, p.loads)];
      && outcome == PassResult(tables, s, p)
      && dest.rows == LoadAll(old(dest.rows), schemaTo, c, p.loads)
      && dest.log == old(dest.log) + Statements(schemaTo, c)
    ensures store.entries == old(store.entries)
  {
    var manager := new ExtractionManager.WithIndexName(store, dest, schemaFrom, schemaTo, indexName);
    outcome := manager.ExecuteEtl(tables, db, p.scan, p.loads);
  }

  /** `transfer` over a bounded number of passes: each pass builds a fresh
      manager, so it starts with no table in flight and reads the checkpoints
      no earlier pass has changed; the loop ends after the first pass that
      raises. */
  method Transfer(passes: seq<PassFaults>, store: CheckpointStore, dest: Destination, schemaFrom: string,
                  schemaTo: string, indexName: string, tables: seq<(string, int)>, db: map<TableName, seq<User>>)
    returns (ran: nat, outcome: Outcome)
    requires PositiveSizes(tables)
    modifies dest
    ensures var s := Snapshot(db, schemaFrom, store.entries, store.minimum);
      var r := RunPasses(old(dest.rows), old(dest.log), schemaTo, tables, s, passes);
      dest.rows == r.rows && dest.log == r.log && ran == r.ran && outcome == r.outcome
    ensures store.entries == old(store.entries)
  {
    ghost var s := Snapshot(db, schemaFrom, store.entries, store.minimum);
    ghost var goal := RunPasses(dest.rows, dest.log, schemaTo, tables, s, passes);
    ran := 0;
    outcome := Finished;
    while ran < |passes|
      invariant 0 <= ran <= |passes|
      invariant store.entries == old(store.entries)
      invariant var r := RunPasses(dest.rows, dest.log, schemaTo, tables, s, passes[ran..]);
        r.rows == goal.rows && r.log == goal.log && r.outcome == goal.outcome && ran + r.ran == goal.ran
    {
      ghost var rows, log := dest.rows, dest.log;
      var pass := TransferPass(passes[ran], store, dest, schemaFrom, schemaTo, indexName, tables, db);
      assert passes[ran..][0] == passes[ran] && passes[ran..][1..] == passes[ran + 1..];
      PassStep(rows, log, dest.rows, dest.log, pass, schemaTo, tables, s, passes[ran..]);
      ran := ran + 1;
      if pass == Raised {
        outcome := Raised;
        return;
      }
    }
    assert passes[ran..] == [];
  }
}
