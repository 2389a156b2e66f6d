/** The checkpoint store and the keys under which the producer reads and
    writes watermarks. The store's own code (a Redis-backed `State`) is not
    part of this model: it is an abstract map from key to watermark that
    answers a fixed minimum watermark for a key it does not hold. */
module Checkpoints {
  import opened Records

  /** The namespace hard-coded into the key that `scan_table` reads. */
  const ReadNamespace: string := "users_auth_2_notif_etl"

  /** The key `scan_table` reads its watermark from. */
  function ReadKey(table: string): string
  {
    ReadNamespace + ":" + table
  }

  /** The key `set_state` writes a watermark to. */
  function WriteKey(indexName: string, table: string): string
  {
    indexName + ":" + table
  }

  /** The read key is the hard-coded namespace, a colon, and the table name. */
  lemma ReadKeyLayout(table: string)
    ensures var k := ReadKey(table);
      && |k| == |ReadNamespace| + 1 + |table|
      && k[..|ReadNamespace|] == ReadNamespace && k[|ReadNamespace|] == ':'
      && k[|ReadNamespace| + 1..] == table
  {
  }

  /** The write key is the index name, a colon, and the table name. */
  lemma WriteKeyLayout(indexName: string, table: string)
    ensures var k := WriteKey(indexName, table);
      && |k| == |indexName| + 1 + |table|
      && k[..|indexName|] == indexName && k[|indexName|] == ':'
      && k[|indexName| + 1..] == table
  {
  }

  /** A committed watermark is read back by the next scan of the same table
      exactly when the index name is the hard-coded read namespace. */
  lemma KeysAgreeIff(indexName: string, table: string)
    ensures ReadKey(table) == WriteKey(indexName, table) <==> indexName == ReadNamespace
  {
    if ReadKey(table) == WriteKey(indexName, table) {
      var k := ReadKey(table);
      assert |indexName| == |ReadNamespace|;
      assert indexName == WriteKey(indexName, table)[..|indexName|];
      assert ReadNamespace == k[..|ReadNamespace|];
    }
  }

  /** Under one index name, different tables write to different keys, so no
      two tables share a watermark. */
  lemma WriteKeysSeparateTables(indexName: string, t1: string, t2: string)
    requires WriteKey(indexName, t1) == WriteKey(indexName, t2)
    ensures t1 == t2
  {
    var n := |indexName| + 1;
    assert t1 == WriteKey(indexName, t1)[n..];
    assert t2 == WriteKey(indexName, t2)[n..];
  }

  /** The watermark recorded for a row: its (updated_at, id). */
  function WatermarkOf(u: User): Entry
  {
    Entry(u.id, u.updatedAt)
  }

  /** Get-or-default of the store. */
  function Lookup(entries: map<string, Entry>, minimum: Entry, key: string): Entry
  {
    if key in entries then entries[key] else minimum
  }

  class CheckpointStore {
    var entries: map<string, Entry>
    const minimum: Entry

    constructor(entries: map<string, Entry>, minimum: Entry)
      ensures this.entries == entries && this.minimum == minimum
    {
      this.entries := entries;
      this.minimum := minimum;
    }

    function Get(key: string): Entry
      reads this
    {
      Lookup(entries, minimum, key)
    }

    /** Overwrites the watermark under `key`; every other key keeps its value. */
    method Set(key: string, e: Entry)
      modifies this
      ensures entries == old(entries)[key := e]
      ensures Get(key) == e
      ensures forall k :: k != key ==> Get(k) == old(Get(k))
    {
      entries := entries[key := e];
    }
  }
}
