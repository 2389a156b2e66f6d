/** The upsert writer (src/auth_to_notification/loaders.py): the statement
    `PostgresLoader.load` sends, `insert ... on conflict (id) do update set
    <every column but id>`, and what that statement does to the destination
    tables. */
module Loaders {
  import opened Records

  /** How an attempt to run a statement ends: it runs, or the connection layer
      raises the domain `Error`, or it raises any other exception. The
      connection code is not part of this model, so the outcome is a
      parameter. */
  datatype Fault = Succeeds | DomainError | OtherError

  /** The columns of the `user` tables, one per field of `User`. */
  datatype Column = Id | Username | FirstName | LastName | IsVerifed | IsActive | UpdatedAt

  /** The column's name in SQL. */
  function Name(c: Column): string
  {
    match c
    case Id => "id"
    case Username => "username"
    case FirstName => "first_name"
    case LastName => "last_name"
    case IsVerifed => "is_verifed"
    case IsActive => "is_active"
    case UpdatedAt => "updated_at"
  }

  /** The columns of `User`, in declaration order. */
  const UserColumns: seq<Column> := [Id, Username, FirstName, LastName, IsVerifed, IsActive, UpdatedAt]

  /** The columns named in the `do update set` clause. */
  function SetColumns(columns: seq<Column>): seq<Column>
  {
    if columns == [] then []
    else if columns[0] == Id then SetColumns(columns[1..])
    else [columns[0]] + SetColumns(columns[1..])
  }

  /** The update clause names every column but `id`. */
  lemma {:induction false} SetColumnsAllButId(columns: seq<Column>)
    ensures forall c :: c in SetColumns(columns) <==> c in columns && c != Id
  {
    if columns != [] {
      SetColumnsAllButId(columns[1..]);
      assert columns == [columns[0]] + columns[1..];
    }
  }

  /** The `do update set` clause of the statement `load` builds. */
  const SetClause: seq<Column> := [Username, FirstName, LastName, IsVerifed, IsActive, UpdatedAt]

  /** The set clause is the columns of `User` with `id` filtered out, in
      declaration order. */
  lemma SetClauseIsFilter()
    ensures SetClause == SetColumns(UserColumns) == UserColumns[1..]
  {
  }

  /** `insert into <target> (<columns>) values <values> on conflict (<conflict>)
      do update set <assignments>`. */
  datatype Statement = Upsert(
    target: TableName,
    columns: seq<Column>,
    values: seq<User>,
    conflict: Column,
    assignments: seq<Column>)

  /** The statement `load` builds for a batch of `table`. */
  function UpsertStatement(schemaTo: string, table: string, items: seq<User>): Statement
  {
    Upsert(Qualified(schemaTo, table), UserColumns, items, Id, SetClause)
  }

  /** The statement inserts the batch into `schema_to.table` under every
      column of `User`, resolves conflicts on `id`, and on conflict sets every
      column but `id`. */
  lemma UpsertStatementShape(schemaTo: string, table: string, items: seq<User>)
    ensures var st := UpsertStatement(schemaTo, table, items);
      && st.target == Qualified(schemaTo, table)
      && st.columns == UserColumns && st.conflict == Id && st.values == items
      && Id !in st.assignments
      && forall c :: c in UserColumns && c != Id ==> c in st.assignments
  {
    SetColumnsAllButId(UserColumns);
    SetClauseIsFilter();
  }

  /** A destination row is addressed by its schema-qualified table and its id. */
  datatype RowKey = RowKey(table: TableName, id: Uuid)

  type Rows = map<RowKey, User>

  /** Every stored row carries the id it is stored under. */
  predicate WellKeyed(rows: Rows)
  {
    forall k :: k in rows ==> rows[k].id == k.id
  }

  /** One assignment of the update clause: the named column of the stored
      `row` takes the value it has in the incoming row `from`. */
  function Assign(row: User, from: User, column: Column): User
  {
    match column
    case Id => row.(id := from.id)
    case Username => row.(username := from.username)
    case FirstName => row.(firstName := from.firstName)
    case LastName => row.(lastName := from.lastName)
    case IsVerifed => row.(isVerifed := from.isVerifed)
    case IsActive => row.(isActive := from.isActive)
    case UpdatedAt => row.(updatedAt := from.updatedAt)
  }

  function AssignAll(row: User, from: User, columns: seq<Column>): User
    decreases |columns|
  {
    if columns == [] then row else AssignAll(Assign(row, from, columns[0]), from, columns[1..])
  }

  /** The update clause of the statement keeps the stored row's id and takes
      every other column from the incoming row. */
  lemma SetClauseKeepsIdentity(row: User, from: User)
    ensures Id !in SetClause
    ensures AssignAll(row, from, SetClause) == from.(id := row.id)
  {
  }

  /** One row of the statement: inserted when its key is absent, otherwise the
      stored row gets the assignments of the update clause. */
  function UpsertRow(rows: Rows, target: TableName, assignments: seq<Column>, u: User): Rows
  {
    var key := RowKey(target, u.id);
    if key in rows then rows[key := AssignAll(rows[key], u, assignments)] else rows[key := u]
  }

  /** The statement's rows, one after another. */
  function ApplyValues(rows: Rows, target: TableName, assignments: seq<Column>, values: seq<User>): Rows
    decreases |values|
  {
    if values == [] then rows
    else ApplyValues(UpsertRow(rows, target, assignments, values[0]), target, assignments, values[1..])
  }

  /** The destination after the statement has run. */
  function Execute(rows: Rows, st: Statement): Rows
  {
    ApplyValues(rows, st.target, st.assignments, st.values)
  }

  /** One row of the statement adds its key if it was absent, storing the
      incoming row as it is, and leaves every other key as it was. */
  lemma UpsertRowFrame(rows: Rows, target: TableName, assignments: seq<Column>, u: User)
    ensures var r := UpsertRow(rows, target, assignments, u);
      && r.Keys == rows.Keys + {RowKey(target, u.id)}
      && (RowKey(target, u.id) !in rows ==> r[RowKey(target, u.id)] == u)
      && forall k :: k in rows && k != RowKey(target, u.id) ==> r[k] == rows[k]
  {
  }

  /** Whatever its assignments, a statement deletes no row, adds rows only to
      its target table, and leaves every row of another table as it was. */
  lemma {:induction false} ExecuteFrame(rows: Rows, st: Statement)
    ensures var r := Execute(rows, st);
      && rows.Keys <= r.Keys
      && (forall k :: k in r && k !in rows ==> k.table == st.target)
      && forall k :: k in rows && k.table != st.target ==> r[k] == rows[k]
    decreases |st.values|
  {
    if st.values != [] {
      var next := UpsertRow(rows, st.target, st.assignments, st.values[0]);
      UpsertRowFrame(rows, st.target, st.assignments, st.values[0]);
      ExecuteFrame(next, st.(values := st.values[1..]));
    }
  }

  /** The rows a batch leaves in `target`, keyed by id; of two rows with the
      same id the later one is kept. */
  function Written(target: TableName, values: seq<User>): Rows
    decreases |values|
  {
    if values == [] then map[]
    else map[RowKey(target, values[0].id) := values[0]] + Written(target, values[1..])
  }

  lemma UnionAssociates(a: Rows, b: Rows, c: Rows)
    ensures (a + b) + c == a + (b + c)
  {
  }

  lemma UpdateIsUnion(m: Rows, k: RowKey, v: User)
    ensures m[k := v] == m + map[k := v]
  {
  }

  predicate DistinctIds(values: seq<User>)
  {
    forall i, j :: 0 <= i < j < |values| ==> values[i].id != values[j].id
  }

  /** The keys a batch writes are the batch's ids in the target table. */
  lemma {:induction false} WrittenKeys(target: TableName, values: seq<User>)
    ensures forall k :: k in Written(target, values) <==>
      k.table == target && exists u :: u in values && u.id == k.id
  {
    if values != [] {
      WrittenKeys(target, values[1..]);
      forall k: RowKey | k.table == target && (exists u :: u in values && u.id == k.id)
        ensures k in Written(target, values)
      {
        var u :| u in values && u.id == k.id;
        if u != values[0] {
          assert u in values[1..];
        }
      }
    }
  }

  /** Each written key holds a row of the batch with that key's id. */
  lemma {:induction false} WrittenFromBatch(target: TableName, values: seq<User>)
    ensures forall k :: k in Written(target, values) ==>
      Written(target, values)[k] in values && Written(target, values)[k].id == k.id
    ensures WellKeyed(Written(target, values))
  {
    if values != [] {
      WrittenFromBatch(target, values[1..]);
      var rest := Written(target, values[1..]);
      forall k | k in Written(target, values)
        ensures Written(target, values)[k] in values && Written(target, values)[k].id == k.id
      {
        if k in rest {
          assert rest[k] in values[1..];
        }
      }
    }
  }

  /** With distinct ids, each row of the batch is written as it is. */
  lemma {:induction false} WrittenDistinct(target: TableName, values: seq<User>)
    requires DistinctIds(values)
    ensures forall u :: u in values ==> RowKey(target, u.id) in Written(target, values)
    ensures forall u :: u in values ==> Written(target, values)[RowKey(target, u.id)] == u
  {
    if values != [] {
      var w := Written(target, values);
      assert DistinctIds(values[1..]) by {
        forall i, j | 0 <= i < j < |values[1..]|
          ensures values[1..][i].id != values[1..][j].id
        {
          assert values[1..][i] == values[i + 1] && values[1..][j] == values[j + 1];
        }
      }
      WrittenDistinct(target, values[1..]);
      WrittenKeys(target, values[1..]);
      forall u | u in values
        ensures RowKey(target, u.id) in w && w[RowKey(target, u.id)] == u
      {
        if u == values[0] {
          assert RowKey(target, u.id) !in Written(target, values[1..]) by {
            forall v | v in values[1..]
              ensures v.id != u.id
            {
              var j :| 0 <= j < |values[1..]| && values[1..][j] == v;
              assert values[j + 1] == v;
            }
          }
        } else {
          assert u in values[1..];
        }
      }
    }
  }

  /** On well-keyed rows, one row of the statement overwrites its key with
      the incoming row. */
  lemma UpsertRowOverwrites(rows: Rows, target: TableName, u: User)
    requires WellKeyed(rows)
    ensures UpsertRow(rows, target, SetClause, u) == rows[RowKey(target, u.id) := u]
    ensures WellKeyed(rows[RowKey(target, u.id) := u])
  {
    var key := RowKey(target, u.id);
    if key in rows {
      SetClauseKeepsIdentity(rows[key], u);
    }
  }

  /** On well-keyed rows, running the statement of a batch overwrites the
      batch's keys with the batch's rows and leaves every other key alone. */
  lemma {:induction false} ApplyValuesIsOverwrite(rows: Rows, target: TableName, values: seq<User>)
    requires WellKeyed(rows)
    ensures ApplyValues(rows, target, SetClause, values) == rows + Written(target, values)
    ensures WellKeyed(rows + Written(target, values))
    decreases |values|
  {
    if values != [] {
      var u := values[0];
      var next := rows[RowKey(target, u.id) := u];
      UpsertRowOverwrites(rows, target, u);
      ApplyValuesIsOverwrite(next, target, values[1..]);
      var first, rest := map[RowKey(target, u.id) := u], Written(target, values[1..]);
      assert Written(target, values) == first + rest;
      UpdateIsUnion(rows, RowKey(target, u.id), u);
      UnionAssociates(rows, first, rest);
    }
  }

  /** On well-keyed rows, the statement `load` builds for a batch overwrites
      the batch's keys in the target table with the batch's rows. */
  lemma UpsertIsOverwrite(rows: Rows, schemaTo: string, table: string, items: seq<User>)
    requires WellKeyed(rows)
    ensures Execute(rows, UpsertStatement(schemaTo, table, items)) == rows + Written(Qualified(schemaTo, table), items)
    ensures WellKeyed(rows + Written(Qualified(schemaTo, table), items))
  {
    ApplyValuesIsOverwrite(rows, Qualified(schemaTo, table), items);
  }

  /** What `load` does to the destination: every row of the batch is inserted
      if its id is absent from the target table, and otherwise the stored row
      keeps its id and takes every other column from the batch row; rows of
      other tables and ids not in the batch are unchanged; the destination
      stays well keyed. */
  lemma UpsertSemantics(rows: Rows, schemaTo: string, table: string, items: seq<User>)
    requires WellKeyed(rows)
    ensures var q := Qualified(schemaTo, table);
      var r := Execute(rows, UpsertStatement(schemaTo, table, items));
      && r == rows + Written(q, items)
      && WellKeyed(r)
      && (forall u :: u in items ==> RowKey(q, u.id) in r)
      && (DistinctIds(items) ==> forall u :: u in items && RowKey(q, u.id) !in rows ==> r[RowKey(q, u.id)] == u)
      && (DistinctIds(items) ==> forall u :: u in items && RowKey(q, u.id) in rows ==>
            r[RowKey(q, u.id)] == AssignAll(rows[RowKey(q, u.id)], u, SetClause))
      && (forall k: RowKey :: (k.table != q || forall u :: u in items ==> u.id != k.id) ==>
            (k in r <==> k in rows) && (k in rows ==> r[k] == rows[k]))
  {
    var q := Qualified(schemaTo, table);
    ApplyValuesIsOverwrite(rows, q, items);
    WrittenKeys(q, items);
    if DistinctIds(items) {
      WrittenDistinct(q, items);
    }
    forall u | u in items && RowKey(q, u.id) in rows
      ensures u == AssignAll(rows[RowKey(q, u.id)], u, SetClause)
    {
      SetClauseKeepsIdentity(rows[RowKey(q, u.id)], u);
    }
  }

  /** Loading the same batch twice leaves the destination as loading it once. */
  lemma UpsertIdempotent(rows: Rows, schemaTo: string, table: string, items: seq<User>)
    requires WellKeyed(rows)
    ensures var st := UpsertStatement(schemaTo, table, items);
      Execute(Execute(rows, st), st) == Execute(rows, st)
  {
    var q := Qualified(schemaTo, table);
    ApplyValuesIsOverwrite(rows, q, items);
    ApplyValuesIsOverwrite(rows + Written(q, items), q, items);
    assert (rows + Written(q, items)) + Written(q, items) == rows + Written(q, items);
  }

  /** The destination database: its tables' rows and the statements it has
      been sent, in order. */
  class Destination {
    var rows: Rows
    var log: seq<Statement>

    constructor(rows: Rows)
      ensures this.rows == rows && log == []
    {
      this.rows := rows;
      log := [];
    }

    /** `manager.execute(sql)`: the statement is sent; it changes the rows only
        if it runs, and a failing statement changes nothing. */
    method Run(st: Statement, fault: Fault)
      modifies this
      ensures log == old(log) + [st]
      ensures rows == if fault == Succeeds then Execute(old(rows), st) else old(rows)
    {
      log := log + [st];
      if fault == Succeeds {
        rows := Execute(rows, st);
      }
    }
  }

  class Loader {
    const dest: Destination
    /** `settings.schema_to`. */
    const schemaTo: string

    constructor(dest: Destination, schemaTo: string)
      ensures this.dest == dest && this.schemaTo == schemaTo
    {
      this.dest := dest;
      this.schemaTo := schemaTo;
    }

    /** `PostgresLoader.load`: sends exactly one upsert statement for the
        batch and reports how it ended. */
    method Load(table: string, items: seq<User>, fault: Fault) returns (status: Fault)
      modifies dest
      ensures status == fault
      ensures dest.log == old(dest.log) + [UpsertStatement(schemaTo, table, items)]
      ensures dest.rows == if fault == Succeeds then Execute(old(dest.rows), UpsertStatement(schemaTo, table, items)) else old(dest.rows)
    {
      var st := UpsertStatement(schemaTo, table, items);
      dest.Run(st, fault);
      status := fault;
    }
  }
}
