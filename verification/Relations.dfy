/**
 What the nodes of a run show, over the tables and columns themselves: each node the columns of its row that were asked
 for, and each loaded edge exactly the related rows (backend/ent/account_query.go:550-844,
 backend/ent/accountgroup_query.go:322-436, backend/ent/account/account.go:86-130).
 */
module Relations {
  import opened Wrappers
  import opened Schema
  import opened Plan
  import opened Eager
  import opened Selection
  import opened Reruns
  import opened Refinement
  import opened Ordering

  // ---------------------------------------------------------------- the relations

  /** The tables that the edges lead to: of accounts the groups, the proxy, the parent, the children, the usage logs and
      the account_groups rows; of an account_groups row the account and the group. */
  function Target(t: Table, k: nat): Table {
    match t
    case Accounts =>
      if k == 0 then Groups else if k == 1 then Proxies else if k == 2 || k == 3 then Accounts
      else if k == 4 then UsageLogs else AccountGroups
    case AccountGroups => if k == 0 then Accounts else Groups
    case _ => t
  }

  /** The foreign key of the row holds the id. */
  predicate Points(r: Row, fk: ForeignKey, id: int) {
    Ref(fk) in r.cells && r.cells[Ref(fk)] == Int(id)
  }

  /** Row n is on edge k of row r. */
  ghost predicate Related(db: Database, t: Table, k: nat, r: Row, n: Row) {
    match t
    case Accounts =>
      if k == 0 then exists l | l in Rows(db, AccountGroups) :: Points(l, AccountID, r.id) && Points(l, GroupID, n.id)
      else if k == 1 then Points(r, ProxyID, n.id)
      else if k == 2 then Points(r, ParentAccountID, n.id)
      else if k == 3 then Points(n, ParentAccountID, r.id)
      else Points(n, AccountID, r.id)
    case AccountGroups => if k == 0 then Points(r, AccountID, n.id) else Points(r, GroupID, n.id)
    case _ => false
  }

  /** The edges that hold a pointer instead of a slice. */
  predicate IsPointer(t: Table, k: nat) {
    t == AccountGroups || (t == Accounts && (k == 1 || k == 2))
  }

  /** The edge leads from r to n. */
  ghost predicate Leads(db: Database, s: Shape, r: Row, n: Row) {
    match s
    case M2M => Linking(Rows(db, AccountGroups), r.id, n.id)
    case M2O(fk) => RefAt(r.cells, fk) == Some(n.id)
    case O2M(fk) => RefAt(n.cells, fk) == Some(r.id)
  }

  /** These are the edges the loaders follow. */
  lemma SameRelations(db: Database, t: Table, k: nat, r: Row, n: Row)
    requires k < |Edges(t)|
    ensures Edges(t)[k].target == Target(t, k) && (Edges(t)[k].shape.M2O? <==> IsPointer(t, k))
    ensures Leads(db, Edges(t)[k].shape, r, n) <==> Related(db, t, k, r, n)
  {
    if t == Accounts && k == 0 {
      assert forall l :: Links(l, r.id, n.id) <==> Points(l, AccountID, r.id) && Points(l, GroupID, n.id);
    }
  }

  // ---------------------------------------------------------------- a node and its row

  /** The foreign keys that the loaded pointer edges need. */
  predicate Needed(q: Plan, c: Column)
    requires |q.subs| == |Edges(q.table)|
  {
    match q.table
    case Accounts => (c == Ref(ProxyID) && q.subs[1].Some?) || (c == Ref(ParentAccountID) && q.subs[2].Some?)
    case AccountGroups => (c == Ref(AccountID) && q.subs[0].Some?) || (c == Ref(GroupID) && q.subs[1].Some?)
    case _ => false
  }

  /** The node shows its row: the id, and of the other columns, unchanged, exactly those that have a value and were
      selected, or are needed, or all of them where nothing is selected. */
  ghost predicate Shows(q: Plan, e: Entity, r: Row)
    requires |q.subs| == |Edges(q.table)|
  {
    && (HasID(q.table) ==> e.id == r.id)
    && forall c | c != ID ::
         && (c in e.cells <==> c in r.cells && (q.fields == [] || c in q.fields || Needed(q, c)))
         && (c in e.cells ==> e.cells[c] == r.cells[c])
  }

  lemma NeededExact(q: Plan, c: Column)
    requires WellTyped(q)
    ensures Needed(q, c) <==>
            exists k | 0 <= k < |LoadedFlags(q)| ::
              LoadedFlags(q)[k] && Edges(q.table)[k].shape.M2O? && c == Ref(Edges(q.table)[k].shape.fk)
  {
    var fs := LoadedFlags(q);
    if q.table == Accounts {
      assert (fs[1] <==> q.subs[1].Some?) && (fs[2] <==> q.subs[2].Some?);
    } else if q.table == AccountGroups {
      assert (fs[0] <==> q.subs[0].Some?) && (fs[1] <==> q.subs[1].Some?);
    }
  }

  lemma DecodeShows(q: Plan, r: Row)
    requires WellTyped(q)
    ensures Shows(q, Decode(q.table, ColumnsOf(q), r), r)
  {
    KeysFetched(q.table, q.fields, LoadedFlags(q));
    forall c | c != ID && q.fields != []
      ensures c in ColumnsOf(q).value <==> c in q.fields || Needed(q, c)
    {
      FetchedExactly(q.table, q.fields, LoadedFlags(q), c);
      NeededExact(q, c);
    }
  }

  /** Every node of a statement shows its row. */
  lemma EntityShows(db: Database, p: Plan, i: nat)
    requires WellTyped(p) && i < |Entities(db, p)|
    ensures i < |NodeRows(db, RequestOf(p))| && Shows(p, Entities(db, p)[i], NodeRows(db, RequestOf(p))[i])
  {
    DecodeShows(p, NodeRows(db, RequestOf(p))[i]);
  }

  /** The foreign key read from a node is that of its row, if it was fetched. */
  lemma KeyShown(q: Plan, e: Entity, r: Row, fk: ForeignKey)
    requires |q.subs| == |Edges(q.table)| && Shows(q, e, r)
    requires q.fields == [] || Ref(fk) in q.fields || Needed(q, Ref(fk))
    requires Nullable(fk) || RefAt(r.cells, fk).Some?
    ensures KeyOf(e, fk) == RefAt(r.cells, fk)
  {
    assert Ref(fk) in e.cells <==> Ref(fk) in r.cells;
  }

  // ---------------------------------------------------------------- how often a row comes back

  lemma {:induction false} FilterCounts(ps: seq<Pred>, hs: seq<Hit>, n: Row)
    ensures multiset(RowsOf(Filter(ps, hs)))[n] == if HoldsAll(ps, n) then multiset(RowsOf(hs))[n] else 0
  {
    if hs != [] {
      var front, last := hs[..|hs| - 1], hs[|hs| - 1];
      FilterCounts(ps, front, n);
      assert hs == front + [last];
      RowsOfMore(front, last);
      RowsOfMore(Filter(ps, front), last);
      if !HoldsAll(ps, last.row) { assert Filter(ps, hs) == Filter(ps, front); }
    }
  }

  lemma RowsOfMore(hs: seq<Hit>, h: Hit)
    ensures RowsOf(hs + [h]) == RowsOf(hs) + [h.row]
  {
  }

  lemma {:induction false} InsertCounts(order: seq<Key>, h: Hit, hs: seq<Hit>)
    ensures multiset(RowsOf(Insert(order, h, hs))) == multiset(RowsOf(hs)) + multiset{h.row}
  {
    if hs == [] || Precedes(order, hs[|hs| - 1].row, h.row) {
      RowsOfMore(hs, h);
      assert [h] == [] + [h];
    } else {
      var front, last := hs[..|hs| - 1], hs[|hs| - 1];
      InsertCounts(order, h, front);
      assert hs == front + [last];
      RowsOfMore(front, last);
      RowsOfMore(Insert(order, h, front), last);
    }
  }

  lemma {:induction false} ArrangeCounts(order: seq<Key>, hs: seq<Hit>)
    ensures multiset(RowsOf(Arrange(order, hs))) == multiset(RowsOf(hs))
  {
    if hs != [] {
      var front, last := hs[..|hs| - 1], hs[|hs| - 1];
      ArrangeCounts(order, front);
      InsertCounts(order, last, Arrange(order, front));
      assert hs == front + [last];
      RowsOfMore(front, last);
    }
  }

  /** An unpaged statement on one table returns a row as often as the table has it if it satisfies the predicates, and
      otherwise not at all. */
  lemma PlainCounts(db: Database, q: Request, n: Row)
    requires q.joins == [] && q.limit == 0 && q.offset == 0
    ensures multiset(NodeRows(db, q))[n] == if HoldsAll(q.preds, n) then multiset(Rows(db, q.table))[n] else 0
  {
    var base := Base(db, q);
    FilterCounts(q.preds, Arrange(q.order, base), n);
    ArrangeCounts(q.order, base);
    assert RowsOf(base) == Rows(db, q.table);
    assert Hits(db, q) == Unlimited(db, q);
  }

  lemma {:induction false} UniqueCounts(rows: seq<Row>, n: Row)
    requires UniqueIDs(rows)
    ensures multiset(rows)[n] == if n in rows then 1 else 0
  {
    if rows != [] {
      var front, last := rows[..|rows| - 1], rows[|rows| - 1];
      assert rows == front + [last];
      UniqueCounts(front, n);
    }
  }

  /** Joined to the link table for some accounts, it returns each of its rows that is linked to one of them once. */
  lemma JoinCounts(db: Database, q: Request, ids: seq<int>, n: Row)
    requires ValidDatabase(db) && HasID(q.table) && q.joins == [ids] && q.limit == 0 && q.offset == 0
    ensures multiset(NodeRows(db, q))[n] ==
            if HoldsAll(q.preds, n) && LinkedToAny(Rows(db, AccountGroups), ids, n.id)
            then multiset(Rows(db, q.table))[n] else 0
  {
    var hits := Hits(db, q);
    FirstSeenDistinct(hits);
    UniqueCounts(FirstSeen(hits), n);
    UniqueCounts(Rows(db, q.table), n);
    SeenRow(db, q, ids, n);
  }

  lemma SeenRow(db: Database, q: Request, ids: seq<int>, n: Row)
    requires ValidDatabase(db) && HasID(q.table) && q.joins == [ids] && q.limit == 0 && q.offset == 0
    ensures n in FirstSeen(Hits(db, q)) <==>
            n in Rows(db, q.table) && HoldsAll(q.preds, n) && LinkedToAny(Rows(db, AccountGroups), ids, n.id)
  {
    var hits, links := Hits(db, q), Rows(db, AccountGroups);
    if n in FirstSeen(hits) {
      FirstSeenRows(hits, n);
      var h :| h in hits && h.row == n;
      HitsMembers(db, q, h);
      JoinMembers(links, Rows(db, q.table), ids, h);
    }
    if n in Rows(db, q.table) && HoldsAll(q.preds, n) && LinkedToAny(links, ids, n.id) {
      var a :| a in ids && Linking(links, a, n.id);
      JoinMembers(links, Rows(db, q.table), ids, Hit(a, n));
      HitsMembers(db, q, Hit(a, n));
      FirstSeenIDs(hits, n.id);
      var m :| m in FirstSeen(hits) && m.id == n.id;
      FirstSeenRows(hits, m);
      var h :| h in hits && h.row == m;
      HitsMembers(db, q, h);
      JoinMembers(links, Rows(db, q.table), ids, h);
      UniqueRow(Rows(db, q.table), m, n);
    }
  }

  // ---------------------------------------------------------------- what an edge holds

  function NodesOn(e: Edge): seq<Val> {
    match e
    case One(None) => []
    case One(Some(n)) => [n]
    case Many(ns) => ns
  }

  /** The places of the neighbours that belong on the edge. */
  function Kept(s: Shape, vs: seq<Val>, hits: seq<Hit>, e: Entity): (ks: seq<nat>)
    ensures forall i | 0 <= i < |ks| :: ks[i] < |vs| && Wants(s, hits, e, vs[ks[i]].ent)
    ensures forall i, j | 0 <= i < j < |ks| :: ks[i] < ks[j]
  {
    if vs == [] then []
    else
      Kept(s, vs[..|vs| - 1], hits, e) + (if Wants(s, hits, e, vs[|vs| - 1].ent) then [|vs| - 1] else [])
  }

  function At<T>(xs: seq<T>, ks: seq<nat>): (ys: seq<T>)
    requires forall i | 0 <= i < |ks| :: ks[i] < |xs|
    ensures |ys| == |ks| && forall i | 0 <= i < |ys| :: ys[i] == xs[ks[i]]
  {
    seq(|ks|, i requires 0 <= i < |ks| => xs[ks[i]])
  }

  lemma AtMore<T>(xs: seq<T>, ks: seq<nat>, x: T)
    requires forall i | 0 <= i < |ks| :: ks[i] < |xs|
    ensures At(xs + [x], ks) == At(xs, ks)
    ensures At(xs + [x], ks + [|xs|]) == At(xs, ks) + [x]
  {
  }

  lemma OneMoreKept(s: Shape, front: seq<Val>, last: Val, hits: seq<Hit>, e: Entity)
    ensures var before, now := NodesOn(Resolve(s, front, hits, e)), NodesOn(Resolve(s, front + [last], hits, e));
            var ks, wanted := Kept(s, front, hits, e), Wants(s, hits, e, last.ent);
              && now == (if !wanted then before else if s.M2O? then [last] else before + [last])
              && Kept(s, front + [last], hits, e) == if wanted then ks + [|front|] else ks
  {
    assert (front + [last])[..|front|] == front;
  }

  lemma {:induction false} SliceKeeps(s: Shape, vs: seq<Val>, hits: seq<Hit>, e: Entity)
    requires !s.M2O?
    ensures NodesOn(Resolve(s, vs, hits, e)) == At(vs, Kept(s, vs, hits, e))
  {
    if vs != [] {
      var front, last := vs[..|vs| - 1], vs[|vs| - 1];
      SliceKeeps(s, front, hits, e);
      assert vs == front + [last];
      OneMoreKept(s, front, last, hits, e);
      AtMore(front, Kept(s, front, hits, e), last);
    }
  }

  lemma {:induction false} PointerKeeps(s: Shape, vs: seq<Val>, hits: seq<Hit>, e: Entity)
    requires s.M2O?
    ensures NodesOn(Resolve(s, vs, hits, e)) == LastOf(At(vs, Kept(s, vs, hits, e)))
  {
    if vs != [] {
      var front, last := vs[..|vs| - 1], vs[|vs| - 1];
      PointerKeeps(s, front, hits, e);
      OneMorePointer(s, front, last, hits, e);
      assert vs == front + [last];
    }
  }

  lemma OneMorePointer(s: Shape, front: seq<Val>, last: Val, hits: seq<Hit>, e: Entity)
    requires s.M2O? && NodesOn(Resolve(s, front, hits, e)) == LastOf(At(front, Kept(s, front, hits, e)))
    ensures var vs := front + [last]; NodesOn(Resolve(s, vs, hits, e)) == LastOf(At(vs, Kept(s, vs, hits, e)))
  {
    OneMoreKept(s, front, last, hits, e);
    LastKept(front, Kept(s, front, hits, e), last);
  }

  lemma LastKept<T>(xs: seq<T>, ks: seq<nat>, x: T)
    requires forall i | 0 <= i < |ks| :: ks[i] < |xs|
    ensures LastOf(At(xs + [x], ks)) == LastOf(At(xs, ks)) && LastOf(At(xs + [x], ks + [|xs|])) == [x]
  {
    AtMore(xs, ks, x);
  }

  function LastOf<T>(xs: seq<T>): seq<T> {
    if xs == [] then [] else [xs[|xs| - 1]]
  }

  /** The rows at these places are those the edge leads to, as often as there are. */
  lemma {:induction false} KeptCounts(s: Shape, vs: seq<Val>, hits: seq<Hit>, e: Entity, rows: seq<Row>,
                                      leads: Row -> bool, n: Row)
    requires |vs| == |rows| && forall j | 0 <= j < |vs| :: Wants(s, hits, e, vs[j].ent) <==> leads(rows[j])
    ensures multiset(At(rows, Kept(s, vs, hits, e)))[n] == if leads(n) then multiset(rows)[n] else 0
  {
    if vs != [] {
      var front, last, ks := rows[..|rows| - 1], rows[|rows| - 1], Kept(s, vs[..|vs| - 1], hits, e);
      KeptCounts(s, vs[..|vs| - 1], hits, e, front, leads, n);
      assert rows == front + [last];
      AtMore(front, ks, last);
      if leads(last) {
        assert At(rows, Kept(s, vs, hits, e)) == At(front, ks) + [last];
      } else {
        assert Kept(s, vs, hits, e) == ks;
      }
    }
  }

  /** What neighbour builders ask for beside their caller: the foreign key by which the nodes are handed out. */
  ghost function Child(q: Plan, k: nat): (c: Plan)
    requires WellTyped(q) && k < |q.subs| && q.subs[k].Some?
    ensures WellTyped(c) && Height(c) < Height(q)
  {
    NarrowHeight(q.subs[k].value, Edges(q.table)[k].shape, []);
    Narrow(q.subs[k].value, Edges(q.table)[k].shape, [])
  }

  /** The rows are those of the edge's table that are related to r and that its builder selects, each as often as the
      table has it. */
  ghost predicate AllRelated(db: Database, q: Plan, k: nat, r: Row, rows: seq<Row>)
    requires k < |q.subs| && q.subs[k].Some?
  {
    forall n :: multiset(rows)[n] ==
                if Related(db, q.table, k, r, n) && Selected(q.subs[k].value, n)
                then multiset(Rows(db, Target(q.table, k)))[n] else 0
  }

  /** The node shows its row, and so does every node below it, where each loaded edge holds all related rows. */
  ghost predicate Truthful(db: Database, q: Plan, v: Val, r: Row)
    requires WellTyped(q)
    decreases Height(q), 1
  {
    && Shows(q, v.ent, r)
    && |v.edges| == |q.subs|
    && forall k | 0 <= k < |q.subs| :: TruthfulEdge(db, q, k, v.edges[k], r)
  }

  ghost predicate TruthfulEdge(db: Database, q: Plan, k: nat, e: Edge, r: Row)
    requires WellTyped(q) && k < |q.subs|
    decreases Height(q), 0
  {
    && (e.One? <==> IsPointer(q.table, k))
    && if q.subs[k].None? then NodesOn(e) == []
       else exists rows | AllRelated(db, q, k, r, rows) ::
              |NodesOn(e)| == |rows| &&
              forall j | 0 <= j < |rows| :: Truthful(db, Child(q, k), NodesOn(e)[j], rows[j])
  }

  /** Whether a node is truthful depends on the table, the fields and the nested builders only. */
  lemma TruthfulSame(db: Database, a: Plan, b: Plan, v: Val, r: Row)
    requires WellTyped(a) && WellTyped(b) && a.table == b.table && a.fields == b.fields && a.subs == b.subs
    requires Truthful(db, a, v, r)
    ensures Truthful(db, b, v, r)
  {
    forall k | 0 <= k < |b.subs| ensures TruthfulEdge(db, b, k, v.edges[k], r) {
      assert TruthfulEdge(db, a, k, v.edges[k], r);
      if b.subs[k].Some? { EdgeSame(db, a, b, k, v.edges[k], r); }
    }
  }

  lemma EdgeSame(db: Database, a: Plan, b: Plan, k: nat, e: Edge, r: Row)
    requires WellTyped(a) && WellTyped(b) && a.table == b.table && a.subs == b.subs && k < |a.subs| && a.subs[k].Some?
    requires TruthfulEdge(db, a, k, e, r)
    ensures TruthfulEdge(db, b, k, e, r)
  {
    var rows :| AllRelated(db, a, k, r, rows) && |NodesOn(e)| == |rows| &&
      forall j | 0 <= j < |rows| :: Truthful(db, Child(a, k), NodesOn(e)[j], rows[j]);
    assert Child(a, k) == Child(b, k);
    assert AllRelated(db, b, k, r, rows);
  }

  // ---------------------------------------------------------------- the neighbours of a batch

  /** Edge k of some nodes is loaded by an unpaged builder that has not run before; one of the nodes shows row r. */
  ghost predicate Batched(db: Database, q: Plan, k: nat, ents: seq<Entity>, i: nat, r: Row) {
    && WellTyped(q) && ValidDatabase(db) && k < |q.subs| && q.subs[k].Some? && Unjoined(q.subs[k].value)
    && q.subs[k].value.limit.GetOr(0) == 0 && q.subs[k].value.offset.GetOr(0) == 0
    && i < |ents| && Shows(q, ents[i], r) && r in Rows(db, q.table)
  }

  lemma WantsLinked(db: Database, q: Request, ids: seq<int>, a: int, n: Row)
    requires ValidDatabase(db) && HasID(q.table) && q.joins == [ids] && q.limit == 0 && q.offset == 0
    requires a in ids && n in NodeRows(db, q)
    ensures Linked(Hits(db, q), a, n.id) <==> Linking(Rows(db, AccountGroups), a, n.id)
  {
    SeenRow(db, q, ids, n);
    if Linked(Hits(db, q), a, n.id) {
      var h :| h in Hits(db, q) && h.owner == a && h.row.id == n.id;
      HitsMembers(db, q, h);
      JoinMembers(Rows(db, AccountGroups), Rows(db, q.table), ids, h);
    }
    if Linking(Rows(db, AccountGroups), a, n.id) {
      JoinMembers(Rows(db, AccountGroups), Rows(db, q.table), ids, Hit(a, n));
      HitsMembers(db, q, Hit(a, n));
    }
  }

  lemma OwnedRow(sub: Plan, fk: ForeignKey, ids: seq<int>, n: Row)
    requires WellTyped(sub) && HoldsAll(Sent(sub, O2M(fk), ids).preds, n)
    ensures RefAt(n.cells, fk).Some?
  {
    KeyHolds(sub.preds, RefIn(fk, ids), TraverserPreds(sub.inters), n);
  }

  lemma KeyHolds(ps: seq<Pred>, key: Pred, ts: seq<Pred>, n: Row)
    requires HoldsAll(ps + [key] + ts, n)
    ensures Holds(key, n)
  {
    assert (ps + [key] + ts)[|ps|] == key;
  }

  lemma WantsPointed(db: Database, q: Plan, k: nat, fk: ForeignKey, e: Entity, r: Row, n: Row, ent: Entity)
    requires WellTyped(q) && ValidDatabase(db) && k < |q.subs| && q.subs[k].Some? && Edges(q.table)[k].shape == M2O(fk)
    requires Shows(q, e, r) && r in Rows(db, q.table) && ent.id == n.id
    ensures Wants(M2O(fk), [], e, ent) <==> RefAt(r.cells, fk) == Some(n.id)
  {
    KeyShown(q, e, r, fk);
  }

  lemma WantsJoined(db: Database, sub: Plan, ids: seq<int>, e: Entity, n: Row, ent: Entity)
    requires WellTyped(sub) && ValidDatabase(db) && HasID(sub.table) && sub.joins == []
    requires sub.limit.GetOr(0) == 0 && sub.offset.GetOr(0) == 0
    requires e.id in ids && n in NodeRows(db, RequestOf(Sent(sub, M2M, ids))) && ent.id == n.id
    ensures Wants(M2M, Hits(db, RequestOf(Sent(sub, M2M, ids))), e, ent) <==>
            Linking(Rows(db, AccountGroups), e.id, n.id)
  {
    WantsLinked(db, RequestOf(Sent(sub, M2M, ids)), ids, e.id, n);
  }

  lemma WantsOwned(b: Plan, fk: ForeignKey, e: Entity, r: Row, n: Row, ent: Entity)
    requires |b.subs| == |Edges(b.table)| && e.id == r.id && RefAt(n.cells, fk).Some?
    requires Shows(b, ent, n) && (b.fields == [] || Ref(fk) in b.fields)
    ensures Wants(O2M(fk), [], e, ent) <==> RefAt(n.cells, fk) == Some(r.id)
  {
    KeyShown(b, ent, n, fk);
  }

  /** The neighbour belongs on the edge of the node exactly if the edge leads from the node's row to the neighbour's. */
  lemma WantsExact(db: Database, q: Plan, k: nat, ents: seq<Entity>, i: nat, r: Row, j: nat, ent: Entity)
    requires Batched(db, q, k, ents, i, r) && j < |NodeRows(db, RequestOf(Prepared(Batch(q, ents, k))))|
    requires Shows(Batch(q, ents, k), ent, NodeRows(db, RequestOf(Prepared(Batch(q, ents, k))))[j])
    ensures var b, s := Batch(q, ents, k), Edges(q.table)[k].shape;
              Wants(s, Hits(db, RequestOf(Prepared(b))), ents[i], ent) <==>
              Leads(db, s, r, NodeRows(db, RequestOf(Prepared(b)))[j])
  {
    var b, s := Batch(q, ents, k), Edges(q.table)[k].shape;
    var n := NodeRows(db, RequestOf(Prepared(b)))[j];
    match s
    case M2M =>
      assert IDs(ents)[i] == ents[i].id;
      WantsJoined(db, q.subs[k].value, IDs(ents), ents[i], n, ent);
    case M2O(fk) => WantsPointed(db, q, k, fk, ents[i], r, n, ent);
    case O2M(fk) =>
      NodeRowsHold(db, RequestOf(Prepared(b)), j);
      OwnedRow(q.subs[k].value, fk, IDs(ents), n);
      WantsOwned(b, fk, ents[i], r, n, ent);
  }

  /** A row that the edge leads to from one of the nodes comes back from the batch query as often as the table has it if
      the builder selects it, and otherwise not at all. */
  lemma BatchCounts(db: Database, q: Plan, k: nat, ents: seq<Entity>, i: nat, r: Row, n: Row)
    requires Batched(db, q, k, ents, i, r) && Leads(db, Edges(q.table)[k].shape, r, n)
    ensures multiset(NodeRows(db, RequestOf(Prepared(Batch(q, ents, k)))))[n] ==
            if Selected(q.subs[k].value, n) then multiset(Rows(db, Target(q.table, k)))[n] else 0
  {
    var sub, s, b := q.subs[k].value, Edges(q.table)[k].shape, Prepared(Batch(q, ents, k));
    SameRelations(db, q.table, k, r, n);
    var ts := TraverserPreds(sub.inters);
    match s
    case M2M =>
      assert IDs(ents)[i] == r.id;
      JoinCounts(db, RequestOf(b), IDs(ents), n);
    case M2O(fk) =>
      KeyShown(q, ents[i], r, fk);
      KeyInBatch(ents, fk, i);
      PlainCounts(db, RequestOf(b), n);
      HoldsKey(sub.preds, IDIn(DistinctKeys(ents, fk)), ts, n);
    case O2M(fk) =>
      assert IDs(ents)[i] == r.id;
      PlainCounts(db, RequestOf(b), n);
      HoldsKey(sub.preds, RefIn(fk, IDs(ents)), ts, n);
  }

  lemma HoldsKey(ps: seq<Pred>, key: Pred, ts: seq<Pred>, n: Row)
    requires Holds(key, n)
    ensures HoldsAll(ps + [key] + ts, n) <==> HoldsAll(ps + ts, n)
  {
    var a, b := ps + [key] + ts, ps + ts;
    if HoldsAll(a, n) {
      forall i | 0 <= i < |b| ensures Holds(b[i], n) {
        assert b[i] == if i < |ps| then a[i] else a[i + 1];
      }
    }
    if HoldsAll(b, n) {
      forall i | 0 <= i < |a| ensures Holds(a[i], n) {
        assert a[i] == if i < |ps| then b[i] else if i == |ps| then key else b[i - 1];
      }
    }
  }

  /** The nodes of a run, or of a batch query, beside their rows. */
  ghost predicate Beside(db: Database, q: Plan, vs: seq<Val>, rows: seq<Row>)
    requires WellTyped(q)
  {
    |vs| == |rows| && forall j | 0 <= j < |vs| :: Truthful(db, q, vs[j], rows[j])
  }

  /** The rows of the batch that belong on the edge of one node. */
  ghost function Share(db: Database, q: Plan, k: nat, ents: seq<Entity>, i: nat): (ks: seq<nat>)
    requires WellTyped(q) && k < |q.subs| && q.subs[k].Some? && i < |ents|
  {
    var b := Batch(q, ents, k);
    Kept(Edges(q.table)[k].shape, Eval(db, b), Hits(db, RequestOf(Prepared(b))), ents[i])
  }

  lemma ShareRelated(db: Database, q: Plan, k: nat, ents: seq<Entity>, i: nat, r: Row)
    requires Batched(db, q, k, ents, i, r)
    requires var b := Batch(q, ents, k); Beside(db, b, Eval(db, b), NodeRows(db, RequestOf(Prepared(b))))
    ensures AllRelated(db, q, k, r, At(NodeRows(db, RequestOf(Prepared(Batch(q, ents, k)))), Share(db, q, k, ents, i)))
  {
    var b, s := Batch(q, ents, k), Edges(q.table)[k].shape;
    var vs, rows, hits := Eval(db, b), NodeRows(db, RequestOf(Prepared(b))), Hits(db, RequestOf(Prepared(b)));
    var leads := (n: Row) => Leads(db, s, r, n);
    forall j | 0 <= j < |vs| ensures Wants(s, hits, ents[i], vs[j].ent) <==> leads(rows[j]) {
      assert Truthful(db, b, vs[j], rows[j]);
      WantsExact(db, q, k, ents, i, r, j, vs[j].ent);
    }
    forall n
      ensures multiset(At(rows, Share(db, q, k, ents, i)))[n] ==
              if Related(db, q.table, k, r, n) && Selected(q.subs[k].value, n)
              then multiset(Rows(db, Target(q.table, k)))[n] else 0
    {
      KeptCounts(s, vs, hits, ents[i], rows, leads, n);
      SameRelations(db, q.table, k, r, n);
      if leads(n) { BatchCounts(db, q, k, ents, i, r, n); }
    }
  }

  lemma ShareTruthful(db: Database, q: Plan, k: nat, ents: seq<Entity>, i: nat, r: Row, j: nat)
    requires Batched(db, q, k, ents, i, r) && j < |Share(db, q, k, ents, i)|
    requires var b := Batch(q, ents, k); Beside(db, b, Eval(db, b), NodeRows(db, RequestOf(Prepared(b))))
    ensures var b, m := Batch(q, ents, k), Share(db, q, k, ents, i)[j];
              Truthful(db, Child(q, k), Eval(db, b)[m], NodeRows(db, RequestOf(Prepared(b)))[m])
  {
    var b, m := Batch(q, ents, k), Share(db, q, k, ents, i)[j];
    assert Truthful(db, b, Eval(db, b)[m], NodeRows(db, RequestOf(Prepared(b)))[m]);
    TruthfulSame(db, b, Child(q, k), Eval(db, b)[m], NodeRows(db, RequestOf(Prepared(b)))[m]);
  }

  /** The nodes on the edge are those at these places. */
  lemma ShareNodes(db: Database, q: Plan, k: nat, ents: seq<Entity>, i: nat)
    requires WellTyped(q) && k < |q.subs| && q.subs[k].Some? && i < |ents|
    requires Edges(q.table)[k].shape.M2O? ==> |Share(db, q, k, ents, i)| <= 1
    ensures NodesOn(LoadEdge(db, q, ents, i, k)) == At(Eval(db, Batch(q, ents, k)), Share(db, q, k, ents, i))
  {
    var b, s := Batch(q, ents, k), Edges(q.table)[k].shape;
    if s.M2O? {
      PointerKeeps(s, Eval(db, b), Hits(db, RequestOf(Prepared(b))), ents[i]);
    } else {
      SliceKeeps(s, Eval(db, b), Hits(db, RequestOf(Prepared(b))), ents[i]);
    }
  }

  lemma EdgeIs(db: Database, q: Plan, k: nat, e: Edge, r: Row, rows: seq<Row>)
    requires WellTyped(q) && k < |q.subs| && q.subs[k].Some? && (e.One? <==> IsPointer(q.table, k))
    requires AllRelated(db, q, k, r, rows) && |NodesOn(e)| == |rows|
    requires forall j | 0 <= j < |rows| :: Truthful(db, Child(q, k), NodesOn(e)[j], rows[j])
    ensures TruthfulEdge(db, q, k, e, r)
  {
  }

  /** What the edge of one node holds, once the batch is back. */
  lemma EdgeHolds(db: Database, q: Plan, k: nat, ents: seq<Entity>, i: nat, r: Row)
    requires Batched(db, q, k, ents, i, r)
    requires var b := Batch(q, ents, k); Beside(db, b, Eval(db, b), NodeRows(db, RequestOf(Prepared(b))))
    ensures TruthfulEdge(db, q, k, LoadEdge(db, q, ents, i, k), r)
  {
    var b, ks, e := Batch(q, ents, k), Share(db, q, k, ents, i), LoadEdge(db, q, ents, i, k);
    var rows := At(NodeRows(db, RequestOf(Prepared(b))), ks);
    ShareRelated(db, q, k, ents, i, r);
    SameRelations(db, q.table, k, r, r);
    if Edges(q.table)[k].shape.M2O? { AtMostOne(db, q, k, r, rows); }
    ShareNodes(db, q, k, ents, i);
    forall j | 0 <= j < |rows| ensures Truthful(db, Child(q, k), NodesOn(e)[j], rows[j]) {
      ShareTruthful(db, q, k, ents, i, r, j);
    }
    EdgeIs(db, q, k, e, r, rows);
  }

  /** A pointer edge leads to at most one row. */
  lemma AtMostOne(db: Database, q: Plan, k: nat, r: Row, rows: seq<Row>)
    requires WellTyped(q) && ValidDatabase(db) && k < |q.subs| && q.subs[k].Some? && Edges(q.table)[k].shape.M2O?
    requires AllRelated(db, q, k, r, rows)
    ensures |rows| <= 1
  {
    if rows != [] {
      var m, table := rows[0], Rows(db, Target(q.table, k));
      SameRelations(db, q.table, k, r, m);
      assert multiset(rows)[m] > 0;
      UniqueCounts(table, m);
      forall n | n in rows ensures n == m {
        SameRelations(db, q.table, k, r, n);
        assert multiset(rows)[n] > 0;
        UniqueCounts(table, n);
        UniqueRow(table, m, n);
      }
      OneValue(rows, m);
    }
  }

  lemma {:induction false} OneValue<T>(xs: seq<T>, x: T)
    requires forall y | y in xs :: y == x
    ensures multiset(xs)[x] == |xs|
  {
    if xs != [] {
      var front, last := xs[..|xs| - 1], xs[|xs| - 1];
      assert xs == front + [last] && last in xs;
      forall y | y in front ensures y == x { assert y in xs; }
      OneValue(front, x);
    }
  }

  // ---------------------------------------------------------------- the whole tree

  /** The nodes of a run show the rows of its statement, and at every depth each loaded edge holds exactly the related
      rows that its builder selects. */
  lemma {:induction false} LoadedTruthfully(db: Database, p: Plan)
    requires WellTyped(p) && ValidDatabase(db) && SubsUnjoined(p) && NestedUnlimited(p)
    ensures Beside(db, p, Eval(db, p), NodeRows(db, RequestOf(Prepared(p))))
    decreases Height(p), 1
  {
    PreparedHeight(p);
    var q := Prepared(p);
    var ents, rows := Entities(db, q), NodeRows(db, RequestOf(q));
    forall i | 0 <= i < |ents| ensures Truthful(db, p, Eval(db, p)[i], rows[i]) {
      EntityShows(db, q, i);
      FromTable(db, RequestOf(q), i);
      forall k | 0 <= k < |q.subs| ensures TruthfulEdge(db, q, k, LoadEdge(db, q, ents, i, k), rows[i]) {
        LoadedEdge(db, q, k, ents, i, rows[i]);
      }
      NodeTruthful(db, q, ents, i, rows[i]);
      TruthfulSame(db, q, p, Eval(db, p)[i], rows[i]);
    }
  }

  lemma NodeTruthful(db: Database, q: Plan, ents: seq<Entity>, i: nat, r: Row)
    requires WellTyped(q) && i < |ents| && Shows(q, ents[i], r)
    requires forall k | 0 <= k < |q.subs| :: TruthfulEdge(db, q, k, LoadEdge(db, q, ents, i, k), r)
    ensures Truthful(db, q, Load(db, q, ents)[i], r)
  {
    var v := Load(db, q, ents)[i];
    forall k | 0 <= k < |q.subs| ensures TruthfulEdge(db, q, k, v.edges[k], r) {
      assert v.edges[k] == LoadEdge(db, q, ents, i, k);
    }
  }

  lemma FromTable(db: Database, q: Request, i: nat)
    requires i < |NodeRows(db, q)|
    ensures NodeRows(db, q)[i] in Rows(db, q.table)
  {
    var r := NodeRows(db, q)[i];
    var h: Hit;
    if q.joins == [] {
      h := Hits(db, q)[i];
    } else {
      FirstSeenRows(Hits(db, q), r);
      h :| h in Hits(db, q) && h.row == r;
    }
    HitsMembers(db, q, h);
    if q.joins != [] {
      JoinAllMembers(Rows(db, AccountGroups), Rows(db, q.table), q.joins, h);
    } else {
      var j :| 0 <= j < |Base(db, q)| && Base(db, q)[j] == h;
    }
  }

  lemma {:induction false} LoadedEdge(db: Database, q: Plan, k: nat, ents: seq<Entity>, i: nat, r: Row)
    requires WellTyped(q) && ValidDatabase(db) && SubsUnjoined(q) && NestedUnlimited(q) && k < |q.subs|
    requires i < |ents| && Shows(q, ents[i], r) && r in Rows(db, q.table)
    ensures TruthfulEdge(db, q, k, LoadEdge(db, q, ents, i, k), r)
    decreases Height(q), 0
  {
    if q.subs[k].Some? {
      var b := Batch(q, ents, k);
      SameSubs(q.subs[k].value, b);
      LoadedTruthfully(db, b);
      EdgeHolds(db, q, k, ents, i, r);
    } else {
      SameRelations(db, q.table, k, r, r);
    }
  }

  /** A loaded pointer edge is nil exactly if no row that it leads to is selected, and otherwise shows that row. */
  lemma PointerShows(db: Database, p: Plan, i: nat, k: nat)
    requires WellTyped(p) && ValidDatabase(db) && SubsUnjoined(p) && NestedUnlimited(p)
    requires i < |Eval(db, p)| && k < |p.subs| && p.subs[k].Some? && IsPointer(p.table, k)
    ensures i < |NodeRows(db, RequestOf(Prepared(p)))| && k < |Eval(db, p)[i].edges|
    ensures var r, e := NodeRows(db, RequestOf(Prepared(p)))[i], Eval(db, p)[i].edges[k];
              && e.One?
              && (e.node.None? <==>
                    forall n | n in Rows(db, Target(p.table, k)) ::
                      !(Related(db, p.table, k, r, n) && Selected(p.subs[k].value, n)))
              && (e.node.Some? ==>
                    exists n | n in Rows(db, Target(p.table, k)) ::
                      && Related(db, p.table, k, r, n) && Selected(p.subs[k].value, n)
                      && Shows(Child(p, k), e.node.value.ent, n))
  {
    LoadedTruthfully(db, p);
    var r, v := NodeRows(db, RequestOf(Prepared(p)))[i], Eval(db, p)[i];
    assert Truthful(db, p, v, r);
    assert TruthfulEdge(db, p, k, v.edges[k], r);
    PointerHolds(db, p, k, v.edges[k], r);
  }

  lemma PointerHolds(db: Database, p: Plan, k: nat, e: Edge, r: Row)
    requires WellTyped(p) && k < |p.subs| && p.subs[k].Some? && e.One? && TruthfulEdge(db, p, k, e, r)
    ensures e.node.None? <==>
              forall n | n in Rows(db, Target(p.table, k)) ::
                !(Related(db, p.table, k, r, n) && Selected(p.subs[k].value, n))
    ensures e.node.Some? ==>
              exists n | n in Rows(db, Target(p.table, k)) ::
                && Related(db, p.table, k, r, n) && Selected(p.subs[k].value, n)
                && Shows(Child(p, k), e.node.value.ent, n)
  {
    var rows :| AllRelated(db, p, k, r, rows) && |NodesOn(e)| == |rows| &&
      forall j | 0 <= j < |rows| :: Truthful(db, Child(p, k), NodesOn(e)[j], rows[j]);
    RelatedMembers(db, p, k, r, rows);
    if e.node.Some? {
      assert rows[0] in rows;
      assert Truthful(db, Child(p, k), NodesOn(e)[0], rows[0]);
    } else {
      assert rows == [];
    }
  }

  lemma RelatedMembers(db: Database, q: Plan, k: nat, r: Row, rows: seq<Row>)
    requires k < |q.subs| && q.subs[k].Some? && AllRelated(db, q, k, r, rows)
    ensures forall n :: n in rows <==>
              n in Rows(db, Target(q.table, k)) && Related(db, q.table, k, r, n) && Selected(q.subs[k].value, n)
  {
    forall n
      ensures n in rows <==>
              n in Rows(db, Target(q.table, k)) && Related(db, q.table, k, r, n) && Selected(q.subs[k].value, n)
    {
      assert n in rows <==> multiset(rows)[n] > 0;
    }
  }
}
