/**
 Eager loading in batches gives every node, at every depth, the neighbours a query for that node alone would give
 (backend/ent/account_query.go:550-844, backend/ent/accountgroup_query.go:334-436).
 */
module Refinement {
  import opened Wrappers
  import opened Schema
  import opened Plan
  import opened Eager
  import opened Selection

  /** Two trees with the same nodes; the order of a many-to-many edge is left open. */
  ghost predicate Same(t: Table, v: Val, w: Val)
    decreases v
  {
    && v.ent == w.ent && v.loaded == w.loaded && |v.edges| == |w.edges| == |Edges(t)|
    && forall k | 0 <= k < |v.edges| :: SameEdge(Edges(t)[k], v.edges[k], w.edges[k])
  }

  ghost predicate SameEdge(d: EdgeDesc, e: Edge, f: Edge)
    decreases e
  {
    match (e, f)
    case (One(a), One(b)) => a.Some? == b.Some? && (a.Some? ==> Same(d.target, a.value, b.value))
    case (Many(a), Many(b)) =>
      if d.shape.M2M? then multiset(a) == multiset(b)
      else |a| == |b| && forall i | 0 <= i < |a| :: Same(d.target, a[i], b[i])
    case _ => false
  }

  ghost predicate AllSame(t: Table, vs: seq<Val>, ws: seq<Val>) {
    |vs| == |ws| && forall i | 0 <= i < |vs| :: Same(t, vs[i], ws[i])
  }

  /** No builder below the root has a limit or an offset. */
  ghost predicate NestedUnlimited(p: Plan)
    decreases p
  {
    forall k | 0 <= k < |p.subs| && p.subs[k].Some? ::
      var q := p.subs[k].value; q.limit.GetOr(0) == 0 && q.offset.GetOr(0) == 0 && NestedUnlimited(q)
  }

  /** The nodes of some hits, each with its edges looked up. */
  ghost function LookUps(db: Database, q: Plan, hs: seq<Hit>): (vs: seq<Val>)
    requires WellTyped(q)
    ensures |vs| == |hs|
  {
    if hs == [] then []
    else
      LookUps(db, q, hs[..|hs| - 1]) +
      [LookUp(db, q, Decode(q.table, FetchedColumns(q.table, q.fields, LoadedFlags(q)), hs[|hs| - 1].row))]
  }

  lemma {:induction false} LookUpsAt(db: Database, q: Plan, hs: seq<Hit>, i: nat)
    requires WellTyped(q) && i < |hs|
    ensures LookUps(db, q, hs)[i] ==
            LookUp(db, q, Decode(q.table, FetchedColumns(q.table, q.fields, LoadedFlags(q)), hs[i].row))
  {
    if i < |hs| - 1 { LookUpsAt(db, q, hs[..|hs| - 1], i); }
  }

  /** Looking up a node's edges depends on the builder only through its table and its sub-builders. */
  lemma LookUpCongruent(db: Database, a: Plan, b: Plan, e: Entity)
    requires WellTyped(a) && WellTyped(b) && a.table == b.table && a.subs == b.subs
    ensures LookUp(db, a, e) == LookUp(db, b, e)
  {
    var x, y := LookUp(db, a, e), LookUp(db, b, e);
    assert LoadedFlags(a) == LoadedFlags(b);
    forall k | 0 <= k < |a.subs| ensures x.edges[k] == y.edges[k] {
      assert x.edges[k] == LookUpEdge(db, a, e, k) && y.edges[k] == LookUpEdge(db, b, e, k);
      if a.subs[k].Some? { assert Batch(a, [e], k) == Batch(b, [e], k); }
    }
    assert x.edges == y.edges;
  }

  lemma NaivePlain(db: Database, p: Plan)
    requires WellTyped(p) && p.joins == []
    ensures Naive(db, p) == LookUps(db, Prepared(p), Hits(db, RequestOf(Prepared(p))))
  {
    var q, vs := Prepared(p), Naive(db, p);
    var hs := Hits(db, RequestOf(q));
    forall i | 0 <= i < |vs| ensures vs[i] == LookUps(db, q, hs)[i] {
      LookUpsAt(db, q, hs, i);
    }
  }

  // ---------------------------------------------------------------- edges that follow a foreign key

  /** The edge made of all of vs. */
  function Whole(s: Shape, vs: seq<Val>): Edge {
    if s.M2O? then One(if vs == [] then None else Some(vs[|vs| - 1])) else Many(vs)
  }

  function ColumnsOf(q: Plan): Option<seq<Column>>
    requires |q.subs| == |Edges(q.table)|
  {
    FetchedColumns(q.table, q.fields, LoadedFlags(q))
  }

  /** q fetches the neighbours of a whole batch, r those of node e alone. */
  ghost predicate Splits(s: Shape, e: Entity, q: Plan, r: Plan)
    requires WellTyped(q)
  {
    && q == r.(preds := q.preds) && !s.M2M?
    && forall x :: HoldsAll(r.preds, x) <==> HoldsAll(q.preds, x) && Wants(s, [], e, Decode(q.table, ColumnsOf(q), x))
  }

  /** Picking node e's share out of the batch's rows gives the rows of the query for e alone. */
  lemma {:induction false} Share(db: Database, s: Shape, e: Entity, q: Plan, r: Plan, hs: seq<Hit>)
    requires WellTyped(q) && WellTyped(r) && Splits(s, e, q, r)
    ensures Resolve(s, LookUps(db, q, Filter(q.preds, hs)), [], e) == Whole(s, LookUps(db, r, Filter(r.preds, hs)))
  {
    if hs != [] {
      var front, h := hs[..|hs| - 1], hs[|hs| - 1];
      Share(db, s, e, q, r, front);
      var v := LookUp(db, q, Decode(q.table, ColumnsOf(q), h.row));
      LookUpsFilter(db, q, hs);
      LookUpsFilter(db, r, hs);
      SameLookUp(db, q, r, h.row);
      ShareStep(s, e, LookUps(db, q, Filter(q.preds, front)), LookUps(db, r, Filter(r.preds, front)), v,
                HoldsAll(q.preds, h.row), HoldsAll(r.preds, h.row));
    }
  }

  lemma SameLookUp(db: Database, q: Plan, r: Plan, x: Row)
    requires WellTyped(q) && WellTyped(r) && q == r.(preds := q.preds)
    ensures LookUp(db, q, Decode(q.table, ColumnsOf(q), x)) == LookUp(db, r, Decode(r.table, ColumnsOf(r), x))
  {
    assert LoadedFlags(q) == LoadedFlags(r);
    LookUpCongruent(db, q, r, Decode(q.table, ColumnsOf(q), x));
  }

  lemma LookUpsFilter(db: Database, q: Plan, hs: seq<Hit>)
    requires WellTyped(q) && hs != []
    ensures LookUps(db, q, Filter(q.preds, hs)) ==
            LookUps(db, q, Filter(q.preds, hs[..|hs| - 1])) +
            (if HoldsAll(q.preds, hs[|hs| - 1].row)
             then [LookUp(db, q, Decode(q.table, ColumnsOf(q), hs[|hs| - 1].row))] else [])
  {
    var kept, h := Filter(q.preds, hs[..|hs| - 1]), hs[|hs| - 1];
    if HoldsAll(q.preds, h.row) {
      assert Filter(q.preds, hs) == kept + [h];
      assert (kept + [h])[..|kept|] == kept;
    } else {
      assert Filter(q.preds, hs) == kept;
    }
  }

  lemma ShareStep(s: Shape, e: Entity, vs: seq<Val>, ws: seq<Val>, v: Val, inBatch: bool, inShare: bool)
    requires !s.M2M? && Resolve(s, vs, [], e) == Whole(s, ws) && (inShare <==> inBatch && Wants(s, [], e, v.ent))
    ensures Resolve(s, vs + (if inBatch then [v] else []), [], e) == Whole(s, ws + (if inShare then [v] else []))
  {
    if inBatch {
      assert (vs + [v])[..|vs|] == vs;
    } else {
      assert vs + [] == vs && ws + [] == ws;
    }
  }

  /** The query for a batch of owners splits into the queries for each. */
  lemma OwnersSplit(p: Plan, fk: ForeignKey, ids: seq<int>, e: Entity)
    requires WellTyped(p) && e.id in ids
    ensures Splits(O2M(fk), e, Sent(p, O2M(fk), ids), Sent(p, O2M(fk), [e.id]))
  {
    var q, r := Sent(p, O2M(fk), ids), Sent(p, O2M(fk), [e.id]);
    KeysFetched(q.table, q.fields, LoadedFlags(q));
    forall x
      ensures HoldsAll(r.preds, x) <==> HoldsAll(q.preds, x) && Wants(O2M(fk), [], e, Decode(q.table, ColumnsOf(q), x))
    {
      KeyRow(p.preds, RefIn(fk, ids), RefIn(fk, [e.id]), TraverserPreds(p.inters), x);
      assert q.preds[|p.preds|] == RefIn(fk, ids);
      OwnRow(q, fk, ids, e, x);
    }
  }

  /** A row that some owner of the batch wants is wanted by e exactly if it names e. */
  lemma OwnRow(q: Plan, fk: ForeignKey, ids: seq<int>, e: Entity, x: Row)
    requires WellTyped(q) && Fetches(ColumnsOf(q), Ref(fk))
    ensures Holds(RefIn(fk, ids), x) ==>
              (Wants(O2M(fk), [], e, Decode(q.table, ColumnsOf(q), x)) <==> Holds(RefIn(fk, [e.id]), x))
  {
    DecodeKeeps(q.table, ColumnsOf(q), x, fk);
  }

  /** The query for a batch of keys splits into the queries for each. */
  lemma KeysSplit(p: Plan, fk: ForeignKey, keys: seq<int>, e: Entity)
    requires WellTyped(p) && HasID(p.table) && KeyOf(e, fk).Some? && KeyOf(e, fk).value in keys
    ensures Splits(M2O(fk), e, Sent(p, M2O(fk), keys), Sent(p, M2O(fk), [KeyOf(e, fk).value]))
  {
    var q, r := Sent(p, M2O(fk), keys), Sent(p, M2O(fk), [KeyOf(e, fk).value]);
    KeysFetched(q.table, q.fields, LoadedFlags(q));
    forall x
      ensures HoldsAll(r.preds, x) <==> HoldsAll(q.preds, x) && Wants(M2O(fk), [], e, Decode(q.table, ColumnsOf(q), x))
    {
      KeyRow(p.preds, IDIn(keys), IDIn([KeyOf(e, fk).value]), TraverserPreds(p.inters), x);
    }
  }

  /** Replacing one predicate of a list by a stronger one. */
  lemma KeyRow(ps: seq<Pred>, a: Pred, b: Pred, ts: seq<Pred>, r: Row)
    requires Holds(b, r) ==> Holds(a, r)
    ensures HoldsAll(ps + [b] + ts, r) <==> HoldsAll(ps + [a] + ts, r) && Holds(b, r)
  {
    var x, y := ps + [a] + ts, ps + [b] + ts;
    assert x[|ps|] == a && y[|ps|] == b;
    if HoldsAll(y, r) {
      forall i | 0 <= i < |x| ensures Holds(x[i], r) { if i != |ps| { assert x[i] == y[i]; } }
    }
    if HoldsAll(x, r) && Holds(b, r) {
      forall i | 0 <= i < |y| ensures Holds(y[i], r) { if i != |ps| { assert x[i] == y[i]; } }
    }
  }

  // ---------------------------------------------------------------- the two evaluations, edge by edge

  lemma {:induction false} SameResolve(d: EdgeDesc, vs: seq<Val>, ws: seq<Val>, hits: seq<Hit>, e: Entity)
    requires AllSame(d.target, vs, ws) && !d.shape.M2M?
    ensures SameEdge(d, Resolve(d.shape, vs, hits, e), Resolve(d.shape, ws, [], e))
  {
    if vs != [] { SameResolve(d, vs[..|vs| - 1], ws[..|ws| - 1], hits, e); }
  }

  /** The neighbours for a single node, and the batch they are a share of. */
  lemma NaiveShare(db: Database, s: Shape, p: Plan, keys: seq<int>, one: seq<int>, e: Entity)
    requires WellTyped(p) && p.joins == [] && p.limit.GetOr(0) == 0 && p.offset.GetOr(0) == 0 && !s.M2M?
    requires WellTyped(Narrow(p, s, keys)) && WellTyped(Narrow(p, s, one))
    requires Splits(s, e, Sent(p, s, keys), Sent(p, s, one))
    ensures Resolve(s, Naive(db, Narrow(p, s, keys)), [], e) == Whole(s, Naive(db, Narrow(p, s, one)))
  {
    var q, r := Sent(p, s, keys), Sent(p, s, one);
    NaivePlain(db, Narrow(p, s, keys));
    NaivePlain(db, Narrow(p, s, one));
    Share(db, s, e, q, r, Arrange(q.order, Base(db, RequestOf(q))));
  }

  /** At most one row has a given id. */
  lemma OneRow(db: Database, p: Plan, fk: ForeignKey, x: int)
    requires WellTyped(p) && HasID(p.table) && ValidDatabase(db) && WellTyped(Narrow(p, M2O(fk), [x]))
    ensures |Naive(db, Narrow(p, M2O(fk), [x]))| <= 1
  {
    var q := Sent(p, M2O(fk), [x]);
    EntitiesDistinct(db, q);
    KeysKnown(db, p, fk, [x]);
    forall i | 0 <= i < |Entities(db, q)| ensures Entities(db, q)[i].id == x {
      assert Entities(db, q)[i] in Entities(db, q);
    }
    if |Entities(db, q)| > 1 { Repeated(Entities(db, q), x); }
  }

  lemma Repeated(es: seq<Entity>, x: int)
    requires |es| > 1 && forall i | 0 <= i < |es| :: es[i].id == x
    ensures exists i, j :: 0 <= i < j < |es| && es[i].id == es[j].id
  {
    assert es[0].id == es[1].id;
  }

  lemma {:induction false} NoneWanted(s: Shape, vs: seq<Val>, hits: seq<Hit>, e: Entity)
    requires s.M2O? && KeyOf(e, s.fk).None?
    ensures Resolve(s, vs, hits, e) == One(None)
  {
    if vs != [] { NoneWanted(s, vs[..|vs| - 1], hits, e); }
  }

  lemma {:induction false} KeyInBatch(es: seq<Entity>, fk: ForeignKey, i: nat)
    requires i < |es| && KeyOf(es[i], fk).Some?
    ensures KeyOf(es[i], fk).value in DistinctKeys(es, fk)
  {
    if i < |es| - 1 { KeyInBatch(es[..|es| - 1], fk, i); }
  }

  /** A one-to-many edge, with both sides evaluated node by node. */
  lemma OwnerEdge(db: Database, p: Plan, ents: seq<Entity>, i: nat, k: nat, fk: ForeignKey)
    requires WellTyped(p) && i < |ents| && k < |p.subs| && p.subs[k].Some? && Edges(p.table)[k].shape == O2M(fk)
    requires p.subs[k].value.joins == [] && p.subs[k].value.limit.GetOr(0) == 0 && p.subs[k].value.offset.GetOr(0) == 0
    ensures Resolve(O2M(fk), Naive(db, Batch(p, ents, k)), [], ents[i]) == LookUpEdge(db, p, ents[i], k)
  {
    var sub, e, keys := p.subs[k].value, ents[i], IDs(ents);
    assert keys[i] == e.id && IDs([e]) == [e.id];
    NarrowHeight(sub, O2M(fk), keys);
    NarrowHeight(sub, O2M(fk), [e.id]);
    OwnersSplit(sub, fk, keys, e);
    NaiveShare(db, O2M(fk), sub, keys, [e.id], e);
  }

  /** A many-to-one edge, with both sides evaluated node by node. */
  lemma KeyEdge(db: Database, p: Plan, ents: seq<Entity>, i: nat, k: nat, fk: ForeignKey)
    requires WellTyped(p) && i < |ents| && k < |p.subs| && p.subs[k].Some? && Edges(p.table)[k].shape == M2O(fk)
    requires p.subs[k].value.joins == [] && p.subs[k].value.limit.GetOr(0) == 0 && p.subs[k].value.offset.GetOr(0) == 0
    requires ValidDatabase(db)
    ensures Resolve(M2O(fk), Naive(db, Batch(p, ents, k)), [], ents[i]) == LookUpEdge(db, p, ents[i], k)
  {
    var e := ents[i];
    if KeyOf(e, fk).None? {
      NoneWanted(M2O(fk), Naive(db, Batch(p, ents, k)), [], e);
    } else {
      KeyInBatch(ents, fk, i);
      OneKey(e, fk);
      var x := KeyOf(e, fk).value;
      assert Batch(p, [e], k) == Narrow(p.subs[k].value, M2O(fk), [x]);
      KeyShare(db, p.subs[k].value, fk, DistinctKeys(ents, fk), e, x);
      OneRow(db, p.subs[k].value, fk, x);
      WholeOne(M2O(fk), Naive(db, Batch(p, [e], k)));
    }
  }

  lemma OneKey(e: Entity, fk: ForeignKey)
    requires KeyOf(e, fk).Some?
    ensures DistinctKeys([e], fk) == [KeyOf(e, fk).value]
  {
    assert [e][..0] == [];
  }

  lemma KeyShare(db: Database, sub: Plan, fk: ForeignKey, keys: seq<int>, e: Entity, x: int)
    requires WellTyped(sub) && HasID(sub.table)
    requires sub.joins == [] && sub.limit.GetOr(0) == 0 && sub.offset.GetOr(0) == 0
    requires KeyOf(e, fk) == Some(x) && x in keys
    requires WellTyped(Narrow(sub, M2O(fk), keys)) && WellTyped(Narrow(sub, M2O(fk), [x]))
    ensures Resolve(M2O(fk), Naive(db, Narrow(sub, M2O(fk), keys)), [], e) ==
            Whole(M2O(fk), Naive(db, Narrow(sub, M2O(fk), [x])))
  {
    KeysSplit(sub, fk, keys, e);
    NaiveShare(db, M2O(fk), sub, keys, [x], e);
  }

  lemma WholeOne(s: Shape, vs: seq<Val>)
    requires s.M2O? && |vs| <= 1
    ensures Whole(s, vs) == One(if vs == [] then None else Some(vs[0]))
  {
  }

  /** A foreign-key edge: what the batch resolves is what a query for the node alone returns. */
  lemma ForeignKeyEdge(db: Database, p: Plan, ents: seq<Entity>, i: nat, k: nat)
    requires WellTyped(p) && ValidDatabase(db) && i < |ents| && k < |p.subs| && p.subs[k].Some?
    requires !Edges(p.table)[k].shape.M2M?
    requires p.subs[k].value.joins == [] && p.subs[k].value.limit.GetOr(0) == 0 && p.subs[k].value.offset.GetOr(0) == 0
    requires AllSame(Edges(p.table)[k].target, Eval(db, Batch(p, ents, k)), Naive(db, Batch(p, ents, k)))
    ensures SameEdge(Edges(p.table)[k], LoadEdge(db, p, ents, i, k), LookUpEdge(db, p, ents[i], k))
  {
    var d, q := Edges(p.table)[k], Batch(p, ents, k);
    SameResolve(d, Eval(db, q), Naive(db, q), Hits(db, RequestOf(Prepared(q))), ents[i]);
    match d.shape
    case O2M(fk) => OwnerEdge(db, p, ents, i, k, fk);
    case M2O(fk) => KeyEdge(db, p, ents, i, k, fk);
  }

  // ---------------------------------------------------------------- many-to-many

  lemma {:induction false} ResolvedMembers(vs: seq<Val>, hits: seq<Hit>, e: Entity, v: Val)
    ensures v in Resolve(M2M, vs, hits, e).nodes <==> v in vs && Linked(hits, e.id, v.ent.id)
  {
    if vs != [] {
      ResolvedMembers(vs[..|vs| - 1], hits, e, v);
      assert vs == vs[..|vs| - 1] + [vs[|vs| - 1]];
    }
  }

  ghost predicate NoRepeats<T>(s: seq<T>) {
    forall i, j | 0 <= i < j < |s| :: s[i] != s[j]
  }

  lemma {:induction false} ResolvedOnce(vs: seq<Val>, hits: seq<Hit>, e: Entity)
    requires NoRepeats(vs)
    ensures NoRepeats(Resolve(M2M, vs, hits, e).nodes)
  {
    if vs != [] {
      ResolvedOnce(vs[..|vs| - 1], hits, e);
      ResolvedMembers(vs[..|vs| - 1], hits, e, vs[|vs| - 1]);
    }
  }

  lemma {:induction false} NoRepeatsCount<T>(s: seq<T>, x: T)
    requires NoRepeats(s)
    ensures multiset(s)[x] == if x in s then 1 else 0
  {
    if s != [] {
      NoRepeatsCount(s[..|s| - 1], x);
      assert s == s[..|s| - 1] + [s[|s| - 1]];
    }
  }

  lemma SameSet<T>(s: seq<T>, t: seq<T>)
    requires NoRepeats(s) && NoRepeats(t) && forall x :: x in s <==> x in t
    ensures multiset(s) == multiset(t)
  {
    forall x ensures multiset(s)[x] == multiset(t)[x] {
      NoRepeatsCount(s, x);
      NoRepeatsCount(t, x);
    }
  }

  /** The row of a group that is linked to account `id`, passes the query's predicates and is in the table. */
  ghost predicate IsLinkedRow(db: Database, q: Request, id: int, r: Row) {
    r in Rows(db, q.table) && HoldsAll(q.preds, r) && Linking(Rows(db, AccountGroups), id, r.id)
  }

  lemma UniqueRow(rows: seq<Row>, r: Row, s: Row)
    requires UniqueIDs(rows) && r in rows && s in rows && r.id == s.id
    ensures r == s
  {
    var i :| 0 <= i < |rows| && rows[i] == r;
    var j :| 0 <= j < |rows| && rows[j] == s;
  }

  /** Which rows an unlimited join returns for account `id`, whatever the batch it was part of. */
  lemma JoinedRows(db: Database, q: Request, id: int, r: Row)
    requires ValidDatabase(db) && HasID(q.table) && q.limit == 0 && q.offset == 0 && |q.joins| == 1 && id in q.joins[0]
    ensures r in NodeRows(db, q) && Linked(Hits(db, q), id, r.id) <==> IsLinkedRow(db, q, id, r)
  {
    var hits, rows, links := Hits(db, q), Rows(db, q.table), Rows(db, AccountGroups);
    if r in NodeRows(db, q) && Linked(hits, id, r.id) {
      FirstSeenRows(hits, r);
      var g :| g in hits && g.row == r;
      HitsMembers(db, q, g);
      JoinMembers(links, rows, q.joins[0], g);
      var h :| h in hits && h.owner == id && h.row.id == r.id;
      HitsMembers(db, q, h);
      JoinMembers(links, rows, q.joins[0], h);
    }
    if IsLinkedRow(db, q, id, r) {
      var h := Hit(id, r);
      JoinMembers(links, rows, q.joins[0], h);
      HitsMembers(db, q, h);
      FirstSeenIDs(hits, r.id);
      var s :| s in FirstSeen(hits) && s.id == r.id;
      FirstSeenRows(hits, s);
      var g :| g in hits && g.row == s;
      HitsMembers(db, q, g);
      JoinMembers(links, rows, q.joins[0], g);
      UniqueRow(rows, r, s);
    }
  }

  /** Every row of the query for one account is linked to it. */
  lemma OwnRows(db: Database, q: Request, id: int, r: Row)
    requires q.joins == [[id]] && r in NodeRows(db, q)
    ensures Linked(Hits(db, q), id, r.id)
  {
    FirstSeenRows(Hits(db, q), r);
    var g :| g in Hits(db, q) && g.row == r;
    HitsMembers(db, q, g);
    JoinMembers(Rows(db, AccountGroups), Rows(db, q.table), [id], g);
  }

  /** The value of a node whose table has no edges. */
  ghost function LeafVal(q: Plan, r: Row): Val
    requires |q.subs| == |Edges(q.table)|
  {
    Val(Decode(q.table, ColumnsOf(q), r), [], [])
  }

  ghost function LeafVals(q: Plan, rs: seq<Row>): (vs: seq<Val>)
    requires |q.subs| == |Edges(q.table)|
    ensures |vs| == |rs| && forall i | 0 <= i < |vs| :: vs[i] == LeafVal(q, rs[i])
  {
    seq(|rs|, i requires 0 <= i < |rs| => LeafVal(q, rs[i]))
  }

  lemma LeafEval(db: Database, p: Plan)
    requires WellTyped(p) && Edges(p.table) == []
    ensures Eval(db, p) == LeafVals(Prepared(p), NodeRows(db, RequestOf(Prepared(p))))
    ensures Naive(db, p) == LeafVals(Prepared(p), NodeRows(db, RequestOf(Prepared(p))))
  {
    var q := Prepared(p);
    var vs, ns, ws := Eval(db, p), Naive(db, p), LeafVals(q, NodeRows(db, RequestOf(q)));
    assert LoadedFlags(q) == [];
    forall i | 0 <= i < |ws| ensures vs[i] == ws[i] && ns[i] == ws[i] {
      assert vs[i].edges == [] && ns[i].edges == [];
    }
  }

  /** Which values an account's share of the join consists of. */
  lemma SharedVals(q: Plan, rs: seq<Row>, hits: seq<Hit>, e: Entity, v: Val)
    requires WellTyped(q) && HasID(q.table)
    ensures v in Resolve(M2M, LeafVals(q, rs), hits, e).nodes <==>
            exists r | r in rs :: v == LeafVal(q, r) && Linked(hits, e.id, r.id)
  {
    var vs := LeafVals(q, rs);
    KeysFetched(q.table, q.fields, LoadedFlags(q));
    ResolvedMembers(vs, hits, e, v);
    if v in vs && Linked(hits, e.id, v.ent.id) {
      var i :| 0 <= i < |vs| && vs[i] == v;
      assert rs[i] in rs;
    }
    if r :| r in rs && v == LeafVal(q, r) && Linked(hits, e.id, r.id) {
      var i :| 0 <= i < |rs| && rs[i] == r;
      assert vs[i] == v;
    }
  }

  lemma LeafValsOnce(q: Plan, rs: seq<Row>)
    requires WellTyped(q) && HasID(q.table) && UniqueIDs(rs)
    ensures NoRepeats(LeafVals(q, rs))
  {
    KeysFetched(q.table, q.fields, LoadedFlags(q));
  }

  /** An account's share of the join is, up to order, what the join for that account alone returns. */
  lemma LinkedShare(db: Database, sub: Plan, ids: seq<int>, e: Entity)
    requires WellTyped(sub) && sub.table == Groups && ValidDatabase(db) && e.id in ids
    requires sub.joins == [] && sub.limit.GetOr(0) == 0 && sub.offset.GetOr(0) == 0
    ensures var q, r := Sent(sub, M2M, ids), Sent(sub, M2M, [e.id]);
              multiset(Resolve(M2M, LeafVals(q, NodeRows(db, RequestOf(q))), Hits(db, RequestOf(q)), e).nodes) ==
              multiset(LeafVals(r, NodeRows(db, RequestOf(r))))
  {
    var q, r := Sent(sub, M2M, ids), Sent(sub, M2M, [e.id]);
    var a, b := RequestOf(q), RequestOf(r);
    var share, alone := Resolve(M2M, LeafVals(q, NodeRows(db, a)), Hits(db, a), e).nodes, LeafVals(r, NodeRows(db, b));
    NodeRowsDistinct(db, a);
    NodeRowsDistinct(db, b);
    LeafValsOnce(q, NodeRows(db, a));
    LeafValsOnce(r, NodeRows(db, b));
    ResolvedOnce(LeafVals(q, NodeRows(db, a)), Hits(db, a), e);
    forall v ensures v in share <==> v in alone {
      LinkedShareOf(db, sub, ids, e, v);
    }
    SameSet(share, alone);
  }

  lemma LinkedShareOf(db: Database, sub: Plan, ids: seq<int>, e: Entity, v: Val)
    requires WellTyped(sub) && sub.table == Groups && ValidDatabase(db) && e.id in ids
    requires sub.joins == [] && sub.limit.GetOr(0) == 0 && sub.offset.GetOr(0) == 0
    ensures var q, r := Sent(sub, M2M, ids), Sent(sub, M2M, [e.id]);
              v in Resolve(M2M, LeafVals(q, NodeRows(db, RequestOf(q))), Hits(db, RequestOf(q)), e).nodes <==>
              v in LeafVals(r, NodeRows(db, RequestOf(r)))
  {
    var q, r := Sent(sub, M2M, ids), Sent(sub, M2M, [e.id]);
    var a, b := RequestOf(q), RequestOf(r);
    SharedVals(q, NodeRows(db, a), Hits(db, a), e, v);
    assert forall x :: LeafVal(q, x) == LeafVal(r, x) by { assert LoadedFlags(q) == LoadedFlags(r); }
    forall x ensures x in NodeRows(db, a) && Linked(Hits(db, a), e.id, x.id) <==> x in NodeRows(db, b) {
      JoinedRows(db, a, e.id, x);
      JoinedRows(db, b, e.id, x);
      if x in NodeRows(db, b) { OwnRows(db, b, e.id, x); }
    }
    var alone := LeafVals(r, NodeRows(db, b));
    if v in alone {
      var i :| 0 <= i < |alone| && alone[i] == v;
      assert NodeRows(db, b)[i] in NodeRows(db, b);
    }
    if x :| x in NodeRows(db, b) && v == LeafVal(r, x) {
      var i :| 0 <= i < |NodeRows(db, b)| && NodeRows(db, b)[i] == x;
      assert alone[i] == v;
    }
  }

  lemma LinkedEdge(db: Database, p: Plan, ents: seq<Entity>, i: nat, k: nat)
    requires WellTyped(p) && ValidDatabase(db) && i < |ents| && k < |p.subs| && p.subs[k].Some?
    requires Edges(p.table)[k].shape.M2M?
    requires p.subs[k].value.joins == [] && p.subs[k].value.limit.GetOr(0) == 0 && p.subs[k].value.offset.GetOr(0) == 0
    ensures SameEdge(Edges(p.table)[k], LoadEdge(db, p, ents, i, k), LookUpEdge(db, p, ents[i], k))
  {
    var sub, e, ids := p.subs[k].value, ents[i], IDs(ents);
    assert ids[i] == e.id && IDs([e]) == [e.id];
    PreparedHeight(Batch(p, ents, k));
    PreparedHeight(Batch(p, [e], k));
    LeafEval(db, Batch(p, ents, k));
    LeafEval(db, Batch(p, [e], k));
    LinkedShare(db, sub, ids, e);
  }

  // ---------------------------------------------------------------- the whole tree

  /** Batched loading refines the per-node lookup, at every depth of the tree. */
  lemma {:induction false} BatchedIsNaive(db: Database, p: Plan)
    requires WellTyped(p) && ValidDatabase(db) && SubsUnjoined(p) && NestedUnlimited(p)
    ensures AllSame(p.table, Eval(db, p), Naive(db, p))
    decreases Height(p), 1
  {
    PreparedHeight(p);
    var q := Prepared(p);
    LoadIsNaive(db, q, Entities(db, q));
    NaiveAt(db, p);
  }

  lemma NaiveAt(db: Database, p: Plan)
    requires WellTyped(p)
    ensures var q := Prepared(p);
              && Eval(db, p) == Load(db, q, Entities(db, q)) && |Naive(db, p)| == |Entities(db, q)|
              && forall i | 0 <= i < |Entities(db, q)| :: Naive(db, p)[i] == LookUp(db, q, Entities(db, q)[i])
  {
  }

  lemma {:induction false} LoadIsNaive(db: Database, q: Plan, ents: seq<Entity>)
    requires WellTyped(q) && ValidDatabase(db) && SubsUnjoined(q) && NestedUnlimited(q)
    ensures forall i | 0 <= i < |ents| :: Same(q.table, Load(db, q, ents)[i], LookUp(db, q, ents[i]))
    decreases Height(q), 0, 1
  {
    forall i | 0 <= i < |ents| ensures Same(q.table, Load(db, q, ents)[i], LookUp(db, q, ents[i])) {
      forall k | 0 <= k < |q.subs|
        ensures SameEdge(Edges(q.table)[k], LoadEdge(db, q, ents, i, k), LookUpEdge(db, q, ents[i], k))
      {
        EdgeIsNaive(db, q, ents, i, k);
      }
      SameNode(db, q, ents, i);
    }
  }

  lemma {:induction false} EdgeIsNaive(db: Database, q: Plan, ents: seq<Entity>, i: nat, k: nat)
    requires WellTyped(q) && ValidDatabase(db) && SubsUnjoined(q) && NestedUnlimited(q) && i < |ents| && k < |q.subs|
    ensures SameEdge(Edges(q.table)[k], LoadEdge(db, q, ents, i, k), LookUpEdge(db, q, ents[i], k))
    decreases Height(q), 0, 0
  {
    if q.subs[k].Some? {
      if Edges(q.table)[k].shape.M2M? {
        LinkedEdge(db, q, ents, i, k);
      } else {
        SameSubs(q.subs[k].value, Batch(q, ents, k));
        BatchedIsNaive(db, Batch(q, ents, k));
        ForeignKeyEdge(db, q, ents, i, k);
      }
    }
  }

  lemma SameSubs(p: Plan, q: Plan)
    requires p.subs == q.subs
    ensures NestedUnlimited(p) <==> NestedUnlimited(q)
    ensures SubsUnjoined(p) <==> SubsUnjoined(q)
  {
  }

  lemma SameNode(db: Database, q: Plan, ents: seq<Entity>, i: nat)
    requires WellTyped(q) && i < |ents|
    requires forall k | 0 <= k < |q.subs| ::
            SameEdge(Edges(q.table)[k], LoadEdge(db, q, ents, i, k), LookUpEdge(db, q, ents[i], k))
    ensures Same(q.table, Load(db, q, ents)[i], LookUp(db, q, ents[i]))
  {
    var v, w := Load(db, q, ents)[i], LookUp(db, q, ents[i]);
    forall k | 0 <= k < |q.subs| ensures SameEdge(Edges(q.table)[k], v.edges[k], w.edges[k]) {
      assert v.edges[k] == LoadEdge(db, q, ents, i, k) && w.edges[k] == LookUpEdge(db, q, ents[i], k);
    }
  }
}
