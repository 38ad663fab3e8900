/**
 The tables, columns and relations behind the account builders
 (backend/ent/account/account.go, backend/ent/schema/account.go, backend/ent/schema/account_group.go).
 A database is a finite sequence of rows per table.
 */
module Schema {
  import opened Wrappers

  datatype Table = Accounts | AccountGroups | Groups | Proxies | UsageLogs

  datatype ForeignKey = ProxyID | ParentAccountID | AccountID | GroupID

  /** The columns of accounts that are neither its id nor a foreign key, in declaration order. */
  datatype Field =
    | CreatedAt | UpdatedAt | DeletedAt | Name | Notes | Platform | Type | Credentials | Extra
    | ProxyFallbackOriginID | Concurrency | LoadFactor | Priority | RateMultiplier | Status
    | ErrorMessage | LastUsedAt | ExpiresAt | AutoPauseOnExpired | Schedulable | RateLimitedAt
    | RateLimitResetAt | OverloadUntil | TempUnschedulableUntil | TempUnschedulableReason
    | SessionWindowStart | SessionWindowEnd | SessionWindowStatus | QuotaDimension

  /** `Leaf` stands for the own columns of the three leaf tables, `Unknown` for a name no table has. */
  datatype Column = ID | Ref(fk: ForeignKey) | Plain(f: Field) | Leaf(leaf: string) | Unknown(name: string)

  /** A non-NULL database value. */
  datatype Value =
    | Time(at: int)
    | Text(text: string)
    | Json(bytes: string)
    | Int(n: int)
    | Bool(flag: bool)
    | Float(amount: real)

  /** `cells` has no entry for a NULL column; `id` is unused in the id-less join table. */
  datatype Row = Row(id: int, cells: map<Column, Value>)

  datatype Database = Database(rows: map<Table, seq<Row>>)

  function Rows(db: Database, t: Table): seq<Row> {
    if t in db.rows then db.rows[t] else []
  }

  predicate HasID(t: Table) {
    t != AccountGroups
  }

  /** The foreign keys that Go holds as a pointer; the others are plain integers whose zero value is 0. */
  predicate Nullable(fk: ForeignKey) {
    fk.ProxyID? || fk.ParentAccountID?
  }

  predicate ValidColumn(t: Table, c: Column) {
    match t
    case Accounts => c.ID? || c == Ref(ProxyID) || c == Ref(ParentAccountID) || c.Plain?
    case AccountGroups => c == Ref(AccountID) || c == Ref(GroupID) || c == Plain(Priority) || c == Plain(CreatedAt)
    case UsageLogs => c.ID? || c == Ref(AccountID) || c.Leaf?
    case Groups => c.ID? || c.Leaf?
    case Proxies => c.ID? || c.Leaf?
  }

  datatype Shape =
    | M2M                 // through the account_groups table
    | M2O(fk: ForeignKey)   // the foreign key is a column of the owning node
    | O2M(fk: ForeignKey)   // the foreign key is a column of the neighbour

  datatype EdgeDesc = EdgeDesc(target: Table, shape: Shape)

  /** The eager-loadable edges of a table, in the order of `loadedTypes`. */
  function Edges(t: Table): (es: seq<EdgeDesc>)
    // Many-to-many and one-to-many edges start at a table with an id and lead to the column's own table.
    ensures forall k | 0 <= k < |es| ::
      && (!es[k].shape.M2O? ==> HasID(t))
      && (es[k].shape.M2O? ==> HasID(es[k].target) && ValidColumn(t, Ref(es[k].shape.fk)))
      && (es[k].shape.O2M? ==> ValidColumn(es[k].target, Ref(es[k].shape.fk)))
      && (es[k].shape.M2M? ==> es[k].target == Groups)
  {
    match t
    case Accounts => [
      EdgeDesc(Groups, M2M),
      EdgeDesc(Proxies, M2O(ProxyID)),
      EdgeDesc(Accounts, M2O(ParentAccountID)),
      EdgeDesc(Accounts, O2M(ParentAccountID)),
      EdgeDesc(UsageLogs, O2M(AccountID)),
      EdgeDesc(AccountGroups, O2M(AccountID))
    ]
    case AccountGroups => [
      EdgeDesc(Accounts, M2O(AccountID)),
      EdgeDesc(Groups, M2O(GroupID))
    ]
    case _ => []
  }

  /** The foreign key among `cells`, if it is not NULL. */
  function RefAt(cells: map<Column, Value>, fk: ForeignKey): Option<int> {
    if Ref(fk) in cells && cells[Ref(fk)].Int? then Some(cells[Ref(fk)].n) else None
  }

  /** Primary keys: ids are unique per table, and a join row always names both of its ends. */
  ghost predicate ValidDatabase(db: Database) {
    && (forall t | HasID(t) :: UniqueIDs(Rows(db, t)))
    && (forall r | r in Rows(db, AccountGroups) :: RefAt(r.cells, AccountID).Some? && RefAt(r.cells, GroupID).Some?)
    && (forall r | r in Rows(db, UsageLogs) :: RefAt(r.cells, AccountID).Some?)
  }

  ghost predicate UniqueIDs(rows: seq<Row>) {
    forall i, j | 0 <= i < j < |rows| :: rows[i].id != rows[j].id
  }
}
