/**
 What a query builder holds, as a value, and the rows one SQL selection returns
 (backend/ent/account_query.go, backend/ent/accountgroup_query.go: builder fields and querySpec).
 */
module Plan {
  import opened Wrappers
  import opened Schema

  /** `IDIn` and `RefIn` are the predicates the loaders append; `Custom` is any caller predicate. */
  datatype Pred =
    | Custom(f: Row -> bool)
    | IDIn(ids: seq<int>)
    | RefIn(fk: ForeignKey, ids: seq<int>)

  type Key = Row -> int

  /** `Traverser` appends a predicate when the query is prepared (soft delete does); `Passive` only wraps execution. */
  datatype Interceptor = Uninitialized | Traverser(pred: Pred) | Passive

  datatype Lock = ForUpdate | ForShare

  /** A builder and its eager-load tree: `subs[k]` is the builder behind edge k, if that edge is loaded. */
  datatype Plan = Plan(
    table: Table,
    fields: seq<Column>,
    limit: Option<nat>,
    offset: Option<nat>,
    order: seq<Key>,
    inters: seq<Interceptor>,
    preds: seq<Pred>,
    joins: seq<seq<int>>,
    locks: seq<Lock>,
    subs: seq<Option<Plan>>)

  /** The empty builder a client hands out for a table. */
  function NewPlan(t: Table, inters: seq<Interceptor>): Plan {
    Plan(t, [], None, None, [], inters, [], [], [], seq(|Edges(t)|, i => None))
  }

  ghost predicate WellTyped(p: Plan) {
    && |p.subs| == |Edges(p.table)|
    && forall k | 0 <= k < |p.subs| && p.subs[k].Some? ::
         p.subs[k].value.table == Edges(p.table)[k].target && WellTyped(p.subs[k].value)
  }

  function Max(a: nat, b: nat): nat { if a < b then b else a }

  /** Height of the eager-load tree: the measure every recursion over it decreases. */
  ghost function Height(p: Plan): (h: nat)
    ensures forall k | 0 <= k < |p.subs| && p.subs[k].Some? :: Height(p.subs[k].value) < h
    decreases p, |p.subs| + 1
  {
    1 + SubsHeight(p, |p.subs|)
  }

  ghost function SubsHeight(p: Plan, n: nat): (h: nat)
    requires n <= |p.subs|
    ensures forall k | 0 <= k < n && p.subs[k].Some? :: Height(p.subs[k].value) <= h
    decreases p, n
  {
    if n == 0 then 0
    else Max(SubsHeight(p, n - 1), if p.subs[n - 1].Some? then Height(p.subs[n - 1].value) else 0)
  }

  lemma {:induction false} SubsHeightEq(p: Plan, q: Plan, n: nat)
    requires p.subs == q.subs && n <= |p.subs|
    ensures SubsHeight(p, n) == SubsHeight(q, n)
    decreases n
  {
    if n != 0 { SubsHeightEq(p, q, n - 1); }
  }

  lemma HeightEq(p: Plan, q: Plan)
    requires p.subs == q.subs
    ensures Height(p) == Height(q)
  {
    SubsHeightEq(p, q, |p.subs|);
  }

  /** A caller's configuration calls, as data; `With` carries the calls its option functions make on the new builder. */
  datatype Call =
    | Where(ps: seq<Pred>)
    | Limit(n: nat)
    | Offset(n: nat)
    | Order(keys: seq<Key>)
    | Select(cs: seq<Column>)
    | Lock(l: Lock)
    | With(k: nat, inters: seq<Interceptor>, calls: seq<Call>)

  /** Every With names an edge the builder's table has. */
  predicate Fits(t: Table, calls: seq<Call>)
    decreases calls
  {
    forall i | 0 <= i < |calls| && calls[i].With? ::
      calls[i].k < |Edges(t)| && Fits(Edges(t)[calls[i].k].target, calls[i].calls)
  }

  /** The plan after one call. */
  ghost function Applied(p: Plan, call: Call): (q: Plan)
    requires WellTyped(p) && Fits(p.table, [call])
    ensures WellTyped(q) && q.table == p.table
    decreases call, 0
  {
    assert [call][0] == call;
    match call
    case Where(ps) => p.(preds := p.preds + ps)
    case Limit(n) => p.(limit := Some(n))
    case Offset(n) => p.(offset := Some(n))
    case Order(keys) => p.(order := p.order + keys)
    case Select(cs) => p.(fields := p.fields + cs)
    case Lock(l) => p.(locks := p.locks + [l])
    case With(k, inters, inner) =>
      p.(subs := p.subs[k := Some(Configured(NewPlan(Edges(p.table)[k].target, inters), inner))])
  }

  /** The plan after the calls, in order. */
  ghost function Configured(p: Plan, calls: seq<Call>): (q: Plan)
    requires WellTyped(p) && Fits(p.table, calls)
    ensures WellTyped(q) && q.table == p.table
    decreases calls
  {
    if calls == [] then p else Applied(Configured(p, calls[..|calls| - 1]), calls[|calls| - 1])
  }

  /** No builder of the tree has been joined to the link table yet. */
  ghost predicate Unjoined(p: Plan) {
    p.joins == [] && SubsUnjoined(p)
  }

  ghost predicate SubsUnjoined(p: Plan)
    decreases p, 0
  {
    forall k | 0 <= k < |p.subs| && p.subs[k].Some? :: Unjoined(p.subs[k].value)
  }

  /** Only builders of many-to-many edges have been joined to the link table, as loaders do it. */
  ghost predicate Loadable(p: Plan)
    requires WellTyped(p)
  {
    p.joins == [] && SubsLoadable(p)
  }

  ghost predicate SubsLoadable(p: Plan)
    requires WellTyped(p)
    decreases p
  {
    forall k | 0 <= k < |p.subs| && p.subs[k].Some? ::
      SubsLoadable(p.subs[k].value) && (!Edges(p.table)[k].shape.M2M? ==> p.subs[k].value.joins == [])
  }

  /** The copy a Clone makes: everything but the modifiers. */
  function Unlocked(p: Plan): (q: Plan) {
    p.(locks := [],
       subs := seq(|p.subs|, k requires 0 <= k < |p.subs| =>
                 if p.subs[k].Some? then Some(Unlocked(p.subs[k].value)) else None))
  }

  // ---------------------------------------------------------------- selection

  /** The part of the SQL statement that decides which rows come back, and in which order. */
  datatype Request = Request(
    table: Table, preds: seq<Pred>, order: seq<Key>, limit: nat, offset: nat, joins: seq<seq<int>>)

  /** An unset limit and a limit of 0 both reach the statement as 0, which means no limit. */
  function RequestOf(p: Plan): Request {
    Request(p.table, p.preds, p.order, p.limit.GetOr(0), p.offset.GetOr(0), p.joins)
  }

  predicate Holds(p: Pred, r: Row) {
    match p
    case Custom(f) => f(r)
    case IDIn(ids) => r.id in ids
    case RefIn(fk, ids) => RefAt(r.cells, fk).Some? && RefAt(r.cells, fk).value in ids
  }

  predicate HoldsAll(ps: seq<Pred>, r: Row) {
    forall i | 0 <= i < |ps| :: Holds(ps[i], r)
  }

  /** One row of a result; a many-to-many statement prefixes the row with the account it was joined to. */
  datatype Hit = Hit(owner: int, row: Row)

  function Plain(rows: seq<Row>): (hs: seq<Hit>)
    ensures |hs| == |rows| && forall i | 0 <= i < |hs| :: hs[i] == Hit(0, rows[i])
  {
    seq(|rows|, i requires 0 <= i < |rows| => Hit(0, rows[i]))
  }

  /** The rows of `rows` with the given id, each joined to `owner`. */
  function Matching(rows: seq<Row>, id: int, owner: int): seq<Hit> {
    if rows == [] then []
    else
      Matching(rows[..|rows| - 1], id, owner) +
      (if rows[|rows| - 1].id == id then [Hit(owner, rows[|rows| - 1])] else [])
  }

  /** The join of `rows` with the links whose account is among `ids`, in the order of the links. */
  function JoinHits(links: seq<Row>, rows: seq<Row>, ids: seq<int>): seq<Hit> {
    if links == [] then []
    else
      var l := links[|links| - 1];
      var a, g := RefAt(l.cells, AccountID), RefAt(l.cells, GroupID);
      JoinHits(links[..|links| - 1], rows, ids) +
      (if a.Some? && g.Some? && a.value in ids then Matching(rows, g.value, a.value) else [])
  }

  /** Row r once for each of its links to one of the accounts `ids`, in the order of the links. */
  function LinksOf(links: seq<Row>, r: Row, ids: seq<int>): seq<Hit> {
    if links == [] then []
    else
      var l := links[|links| - 1];
      var a, g := RefAt(l.cells, AccountID), RefAt(l.cells, GroupID);
      LinksOf(links[..|links| - 1], r, ids) +
      (if a.Some? && g == Some(r.id) && a.value in ids then [Hit(a.value, r)] else [])
  }

  /** The join of rows that have been joined before with the links once more. */
  function JoinAgain(links: seq<Row>, hits: seq<Hit>, ids: seq<int>): seq<Hit> {
    if hits == [] then []
    else JoinAgain(links, hits[..|hits| - 1], ids) + LinksOf(links, hits[|hits| - 1].row, ids)
  }

  /** The rows joined to the link table once per batch of accounts; they show the account of the last join. */
  function JoinAll(links: seq<Row>, rows: seq<Row>, joins: seq<seq<int>>): seq<Hit>
    requires joins != []
  {
    if |joins| == 1 then JoinHits(links, rows, joins[0])
    else JoinAgain(links, JoinAll(links, rows, joins[..|joins| - 1]), joins[|joins| - 1])
  }

  function Base(db: Database, q: Request): seq<Hit> {
    if q.joins == [] then Plain(Rows(db, q.table))
    else JoinAll(Rows(db, AccountGroups), Rows(db, q.table), q.joins)
  }

  predicate Precedes(order: seq<Key>, a: Row, b: Row) {
    if order == [] then true
    else
      var x, y := order[0](a), order[0](b);
      x < y || (x == y && Precedes(order[1..], a, b))
  }

  function Insert(order: seq<Key>, h: Hit, hs: seq<Hit>): seq<Hit> {
    if hs == [] then [h]
    else if Precedes(order, hs[|hs| - 1].row, h.row) then hs + [h]
    else Insert(order, h, hs[..|hs| - 1]) + [hs[|hs| - 1]]
  }

  /** ORDER BY: the stable sort of `hs` by the order terms. */
  function Arrange(order: seq<Key>, hs: seq<Hit>): seq<Hit> {
    if hs == [] then [] else Insert(order, hs[|hs| - 1], Arrange(order, hs[..|hs| - 1]))
  }

  /** WHERE: the hits whose row satisfies every predicate, in order. */
  function Filter(ps: seq<Pred>, hs: seq<Hit>): seq<Hit> {
    if hs == [] then []
    else Filter(ps, hs[..|hs| - 1]) + (if HoldsAll(ps, hs[|hs| - 1].row) then [hs[|hs| - 1]] else [])
  }

  /** OFFSET and LIMIT. */
  function Page<T>(offset: nat, limit: nat, s: seq<T>): seq<T> {
    var t := if offset <= |s| then s[offset..] else [];
    if limit == 0 || |t| <= limit then t else t[..limit]
  }

  /** The rows of a statement before its limit and offset are applied. */
  function Unlimited(db: Database, q: Request): seq<Hit> {
    Filter(q.preds, Arrange(q.order, Base(db, q)))
  }

  /** The rows the driver returns for a statement. */
  function Hits(db: Database, q: Request): seq<Hit> {
    Page(q.offset, q.limit, Unlimited(db, q))
  }

  /** The rows of `hs` without those whose id occurred earlier. */
  function FirstSeen(hs: seq<Hit>): seq<Row> {
    if hs == [] then []
    else
      var before := FirstSeen(hs[..|hs| - 1]);
      if Seen(hs[..|hs| - 1], hs[|hs| - 1].row.id) then before else before + [hs[|hs| - 1].row]
  }

  predicate Seen(hs: seq<Hit>, id: int) {
    exists h | h in hs :: h.row.id == id
  }

  function RowsOf(hs: seq<Hit>): (rs: seq<Row>)
    ensures |rs| == |hs| && forall i | 0 <= i < |rs| :: rs[i] == hs[i].row
  {
    seq(|hs|, i requires 0 <= i < |hs| => hs[i].row)
  }

  /** The rows that become nodes: every hit of a plain statement, each id once in a joined one. */
  function NodeRows(db: Database, q: Request): seq<Row> {
    if q.joins == [] then RowsOf(Hits(db, q)) else FirstSeen(Hits(db, q))
  }

  // ---------------------------------------------------------------- projection

  function Without(cs: seq<Column>, c: Column): seq<Column> {
    if cs == [] then []
    else Without(cs[..|cs| - 1], c) + (if cs[|cs| - 1] == c then [] else [cs[|cs| - 1]])
  }

  function AddOnce(cs: seq<Column>, c: Column): seq<Column> {
    if c in cs then cs else cs + [c]
  }

  /** Adds the foreign key of each of the first n edges that is loaded and many-to-one. */
  function AddKeys(t: Table, cs: seq<Column>, loaded: seq<bool>, n: nat): seq<Column>
    requires n <= |loaded| && n <= |Edges(t)|
  {
    if n == 0 then cs
    else
      var before := AddKeys(t, cs, loaded, n - 1);
      if loaded[n - 1] && Edges(t)[n - 1].shape.M2O? then AddOnce(before, Ref(Edges(t)[n - 1].shape.fk)) else before
  }

  function LoadedFlags(p: Plan): (fs: seq<bool>)
    ensures |fs| == |p.subs| && forall k | 0 <= k < |fs| :: fs[k] == p.subs[k].Some?
  {
    seq(|p.subs|, k requires 0 <= k < |p.subs| => p.subs[k].Some?)
  }

  /** The columns a statement fetches: all of them (None) unless the builder selects fields. */
  function FetchedColumns(t: Table, fields: seq<Column>, loaded: seq<bool>): Option<seq<Column>>
    requires |loaded| == |Edges(t)|
  {
    if fields == [] then None
    else Some(AddKeys(t, if HasID(t) then [ID] + Without(fields, ID) else fields, loaded, |loaded|))
  }

  /** A decoded node: the cells that were fetched and not NULL. */
  datatype Entity = Entity(id: int, cells: map<Column, Value>)

  function Decode(t: Table, cols: Option<seq<Column>>, r: Row): Entity {
    Entity(if HasID(t) && (cols.None? || ID in cols.value) then r.id else 0,
           if cols.None? then r.cells else map c | c in r.cells && c in cols.value :: r.cells[c])
  }

  /** The foreign key a loader reads from a node; a plain integer field reads as 0 when it was not fetched. */
  function KeyOf(e: Entity, fk: ForeignKey): Option<int> {
    if RefAt(e.cells, fk).Some? then RefAt(e.cells, fk)
    else if Nullable(fk) then None
    else Some(0)
  }

  function DecodeAll(t: Table, cols: Option<seq<Column>>, rs: seq<Row>): (es: seq<Entity>)
    ensures |es| == |rs| && forall i | 0 <= i < |es| :: es[i] == Decode(t, cols, rs[i])
  {
    seq(|rs|, i requires 0 <= i < |rs| => Decode(t, cols, rs[i]))
  }

  ghost function Entities(db: Database, p: Plan): seq<Entity>
    requires WellTyped(p)
  {
    DecodeAll(p.table, FetchedColumns(p.table, p.fields, LoadedFlags(p)), NodeRows(db, RequestOf(p)))
  }
}
