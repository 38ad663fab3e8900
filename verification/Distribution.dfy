/**
 How a batch of neighbours is divided among its nodes, edge by edge (backend/ent/account_query.go:627-844), what the
 edge accessors report afterwards (backend/ent/account.go:105-165).
 */
module Distribution {
  import opened Wrappers
  import opened Schema
  import opened Plan
  import opened Eager
  import opened Selection
  import opened Refinement

  // ---------------------------------------------------------------- one-to-many

  /** The number of neighbours on the edges of the first n nodes. */
  ghost function Attached(ents: seq<Entity>, fk: ForeignKey, vs: seq<Val>, n: nat): nat
    requires n <= |ents|
  {
    if n == 0 then 0 else Attached(ents, fk, vs, n - 1) + |Resolve(O2M(fk), vs, [], ents[n - 1]).nodes|
  }

  ghost predicate DistinctEnts(ents: seq<Entity>) {
    forall i, j | 0 <= i < j < |ents| :: ents[i].id != ents[j].id
  }

  /** One more neighbour lengthens exactly the edge of the node it names. */
  lemma {:induction false} AttachOne(ents: seq<Entity>, fk: ForeignKey, vs: seq<Val>, v: Val, n: nat)
    requires n <= |ents| && DistinctEnts(ents)
    ensures Attached(ents, fk, vs + [v], n) ==
            Attached(ents, fk, vs, n) +
            (if exists i :: 0 <= i < n && KeyOf(v.ent, fk) == Some(ents[i].id) then 1 else 0)
  {
    if n != 0 {
      AttachOne(ents, fk, vs, v, n - 1);
      assert (vs + [v])[..|vs|] == vs;
    }
  }

  lemma {:induction false} AllAttached(ents: seq<Entity>, fk: ForeignKey, vs: seq<Val>)
    requires DistinctEnts(ents)
    requires forall v | v in vs :: exists i :: 0 <= i < |ents| && KeyOf(v.ent, fk) == Some(ents[i].id)
    ensures Attached(ents, fk, vs, |ents|) == |vs|
  {
    if vs == [] {
      NoneAttached(ents, fk, |ents|);
    } else {
      var front, last := vs[..|vs| - 1], vs[|vs| - 1];
      assert vs == front + [last];
      assert last in vs;
      AllAttached(ents, fk, front);
      AttachOne(ents, fk, front, last, |ents|);
    }
  }

  lemma {:induction false} NoneAttached(ents: seq<Entity>, fk: ForeignKey, n: nat)
    requires n <= |ents|
    ensures Attached(ents, fk, [], n) == 0
  {
    if n != 0 { NoneAttached(ents, fk, n - 1); }
  }

  /** Of a one-to-many edge, every neighbour the batch query returns ends up on exactly one node: the edges' lengths
      add up to the number of neighbours. */
  lemma OwnersConserve(db: Database, p: Plan, k: nat, fk: ForeignKey)
    requires WellTyped(p) && ValidDatabase(db) && k < |p.subs| && p.subs[k].Some? && Edges(p.table)[k].shape == O2M(fk)
    ensures var ents := Entities(db, p);
              Attached(ents, fk, Eval(db, Batch(p, ents, k)), |ents|) == |Eval(db, Batch(p, ents, k))|
  {
    var ents := Entities(db, p);
    var vs := Eval(db, Batch(p, ents, k));
    EntitiesDistinct(db, p);
    OwnersKnown(db, p.subs[k].value, fk, IDs(ents));
    var q := Sent(p.subs[k].value, O2M(fk), IDs(ents));
    forall v | v in vs ensures exists i :: 0 <= i < |ents| && KeyOf(v.ent, fk) == Some(ents[i].id) {
      var j :| 0 <= j < |vs| && vs[j] == v;
      assert v.ent == Entities(db, q)[j] && Entities(db, q)[j] in Entities(db, q);
      var i :| 0 <= i < |ents| && IDs(ents)[i] == KeyOf(v.ent, fk).value;
    }
    AllAttached(ents, fk, vs);
  }

  // ---------------------------------------------------------------- many-to-one

  /** The ids sent to the database are exactly the non-nil foreign keys, each once. */
  lemma {:induction false} KeysExact(es: seq<Entity>, fk: ForeignKey, x: int)
    ensures x in DistinctKeys(es, fk) <==> exists i :: 0 <= i < |es| && KeyOf(es[i], fk) == Some(x)
    ensures NoRepeats(DistinctKeys(es, fk))
  {
    if es != [] {
      KeysExact(es[..|es| - 1], fk, x);
      assert es == es[..|es| - 1] + [es[|es| - 1]];
    }
  }

  datatype EdgeError = NotFound | NotLoaded

  /** ProxyOrErr, ParentOrErr, AccountOrErr, GroupOrErr. */
  function PointerOrErr(v: Val, k: nat): Result<Val, EdgeError>
    requires k < |v.edges| && k < |v.loaded| && v.edges[k].One?
  {
    if v.edges[k].node.Some? then Ok(v.edges[k].node.value)
    else if v.loaded[k] then Err(NotFound)
    else Err(NotLoaded)
  }

  /** GroupsOrErr, ChildrenOrErr, UsageLogsOrErr, AccountGroupsOrErr. */
  function SliceOrErr(v: Val, k: nat): Result<seq<Val>, EdgeError>
    requires k < |v.edges| && k < |v.loaded| && v.edges[k].Many?
  {
    if v.loaded[k] then Ok(v.edges[k].nodes) else Err(NotLoaded)
  }

  /** The pointer of a many-to-one edge: a returned neighbour with that id if there is one, nil otherwise. */
  lemma {:induction false} PointerMeaning(s: Shape, vs: seq<Val>, hits: seq<Hit>, e: Entity)
    requires s.M2O?
    ensures var r := Resolve(s, vs, hits, e).node;
              && (r.Some? ==> r.value in vs && KeyOf(e, s.fk) == Some(r.value.ent.id))
              && (r.None? <==> forall v | v in vs :: KeyOf(e, s.fk) != Some(v.ent.id))
  {
    if vs != [] {
      PointerMeaning(s, vs[..|vs| - 1], hits, e);
      assert vs == vs[..|vs| - 1] + [vs[|vs| - 1]];
    }
  }

  /** After a run, the accessor of a many-to-one edge answers NotLoaded exactly when the edge was not asked for,
      NotFound exactly when it was and the node's foreign key is nil or names no returned row, and otherwise that
      row's node. */
  lemma AccessorExact(db: Database, p: Plan, i: nat, k: nat)
    requires WellTyped(p) && i < |Eval(db, p)| && k < |p.subs| && Edges(p.table)[k].shape.M2O?
    ensures var v := Eval(db, p)[i];
              && k < |v.edges| && k < |v.loaded| && v.edges[k].One?
              && (PointerOrErr(v, k) == Err(NotLoaded) <==> p.subs[k].None?)
              && (p.subs[k].Some? ==>
                    var q := Prepared(p);
                    var vs, key := Eval(db, Batch(q, Entities(db, q), k)), KeyOf(v.ent, Edges(p.table)[k].shape.fk);
                    && (PointerOrErr(v, k) == Err(NotFound) <==> forall n | n in vs :: key != Some(n.ent.id))
                    && (PointerOrErr(v, k).Ok? ==>
                          PointerOrErr(v, k).value in vs && key == Some(PointerOrErr(v, k).value.ent.id)))
  {
    var q := Prepared(p);
    var ents, v := Entities(db, q), Eval(db, p)[i];
    assert v.edges[k] == LoadEdge(db, q, ents, i, k);
    if p.subs[k].Some? {
      PointerMeaning(Edges(p.table)[k].shape, Eval(db, Batch(q, ents, k)),
          Hits(db, RequestOf(Prepared(Batch(q, ents, k)))), ents[i]);
    }
  }

  /** After a run, the accessor of a slice edge answers NotLoaded exactly when the edge was not asked for, and otherwise
      the neighbours handed to the node, of which there may be none; it never answers NotFound. */
  lemma SliceAccessorExact(db: Database, p: Plan, i: nat, k: nat)
    requires WellTyped(p) && i < |Eval(db, p)| && k < |p.subs| && !Edges(p.table)[k].shape.M2O?
    ensures var v, q := Eval(db, p)[i], Prepared(p);
              && k < |v.edges| && k < |v.loaded| && v.edges[k].Many?
              && (SliceOrErr(v, k) == Err(NotLoaded) <==> p.subs[k].None?)
              && (SliceOrErr(v, k).Ok? ==> LoadEdge(db, q, Entities(db, q), i, k) == Many(SliceOrErr(v, k).value))
              && SliceOrErr(v, k) != Err(NotFound)
  {
    var q := Prepared(p);
    assert Eval(db, p)[i].edges[k] == LoadEdge(db, q, Entities(db, q), i, k);
  }

  // ---------------------------------------------------------------- many-to-many

  /** The rows linked to an account, in the order of `rows`. */
  function LinkedRows(rows: seq<Row>, hits: seq<Hit>, id: int): seq<Row> {
    if rows == [] then []
    else
      LinkedRows(rows[..|rows| - 1], hits, id) +
      (if Linked(hits, id, rows[|rows| - 1].id) then [rows[|rows| - 1]] else [])
  }

  /** For any rows a join may return, in any interleaving and with any repetition: an account's list holds a row of
      each id it was joined to exactly once and nothing else, in the order in which the ids first appear over all
      accounts. */
  lemma JoinDistribution(hits: seq<Hit>, id: int, x: int)
    ensures UniqueIDs(LinkedRows(FirstSeen(hits), hits, id))
    ensures HasRowID(LinkedRows(FirstSeen(hits), hits, id), x) <==> Linked(hits, id, x)
  {
    FirstSeenDistinct(hits);
    LinkedRowsMembers(FirstSeen(hits), hits, id);
    FirstSeenIDs(hits, x);
    var kept := LinkedRows(FirstSeen(hits), hits, id);
    if Linked(hits, id, x) {
      var h :| h in hits && h.owner == id && h.row.id == x;
      assert Seen(hits, x);
      var r :| r in FirstSeen(hits) && r.id == x;
      assert r in kept;
    }
    if HasRowID(kept, x) {
      var r :| r in kept && r.id == x;
    }
  }

  lemma {:induction false} LinkedRowsMembers(rows: seq<Row>, hits: seq<Hit>, id: int)
    requires UniqueIDs(rows)
    ensures UniqueIDs(LinkedRows(rows, hits, id))
    ensures forall r :: r in LinkedRows(rows, hits, id) <==> r in rows && Linked(hits, id, r.id)
  {
    if rows != [] {
      var front, last := rows[..|rows| - 1], rows[|rows| - 1];
      assert rows == front + [last];
      LinkedRowsMembers(front, hits, id);
    }
  }

  /** What a loaded many-to-many edge holds: the nodes of exactly those rows, in exactly that order. */
  lemma {:induction false} JoinedEdge(q: Plan, rows: seq<Row>, hits: seq<Hit>, e: Entity)
    requires WellTyped(q) && HasID(q.table)
    ensures Resolve(M2M, LeafVals(q, rows), hits, e) == Many(LeafVals(q, LinkedRows(rows, hits, e.id)))
  {
    if rows != [] {
      var front, last := rows[..|rows| - 1], rows[|rows| - 1];
      JoinedEdge(q, front, hits, e);
      KeysFetched(q.table, q.fields, LoadedFlags(q));
      assert LeafVals(q, rows)[..|rows| - 1] == LeafVals(q, front);
      var kept := LinkedRows(front, hits, e.id);
      assert LeafVals(q, kept + [last]) == LeafVals(q, kept) + [LeafVal(q, last)];
    }
  }

  lemma LoadedJoin(db: Database, p: Plan, ents: seq<Entity>, i: nat, k: nat)
    requires WellTyped(p) && i < |ents| && k < |p.subs| && p.subs[k].Some? && Edges(p.table)[k].shape.M2M?
    requires p.subs[k].value.joins == []
    ensures var q := Sent(p.subs[k].value, M2M, IDs(ents));
              LoadEdge(db, p, ents, i, k) ==
              Many(LeafVals(q, LinkedRows(FirstSeen(Hits(db, RequestOf(q))), Hits(db, RequestOf(q)), ents[i].id)))
  {
    var q := Sent(p.subs[k].value, M2M, IDs(ents));
    LeafEval(db, Batch(p, ents, k));
    JoinedEdge(q, FirstSeen(Hits(db, RequestOf(q))), Hits(db, RequestOf(q)), ents[i]);
  }
}
