/** The replicated entities: a `User` row of the source table and the
    `Entry` watermark kept per checkpoint key. UUIDs and timestamps are
    modelled as integers, which keeps the total orders the database uses. */
module Records {

  datatype Option<+T> = None | Some(value: T)

  type Uuid = int
  type Timestamp = int

  /** One row of the `user` table. The field `isVerifed` keeps the
      column's own spelling (`is_verifed`). */
  datatype User = User(
    id: Uuid,
    username: string,
    firstName: Option<string>,
    lastName: Option<string>,
    isVerifed: bool,
    isActive: bool,
    updatedAt: Timestamp)

  /** The watermark: the (modified, id) pair of the last replicated row. */
  datatype Entry = Entry(id: Uuid, modified: Timestamp)

  /** One page of rows, as the scanner yields it and the loader consumes it. */
  type Batch = seq<User>

  /** Lexicographic order on (ordering field, identity) pairs. */
  predicate KeyLe(t1: Timestamp, i1: Uuid, t2: Timestamp, i2: Uuid)
  {
    t1 < t2 || (t1 == t2 && i1 <= i2)
  }

  /** The `order by updated_at asc, id asc` order on rows. */
  predicate RowLe(a: User, b: User)
  {
    KeyLe(a.updatedAt, a.id, b.updatedAt, b.id)
  }

  /** A schema-qualified table name, written `schema.table` in SQL. */
  datatype TableName = Qualified(schema: string, table: string)

  function Last(b: Batch): User
    requires |b| > 0
  {
    b[|b| - 1]
  }
}
