/** What a selection returns: membership, distinct ids and fetched columns. */
module Selection {
  import opened Wrappers
  import opened Schema
  import opened Plan
  import opened Eager

  lemma {:induction false} InsertMembers(order: seq<Key>, x: Hit, hs: seq<Hit>, h: Hit)
    ensures h in Insert(order, x, hs) <==> h == x || h in hs
  {
    if hs != [] && !Precedes(order, hs[|hs| - 1].row, x.row) {
      InsertMembers(order, x, hs[..|hs| - 1], h);
    }
    if hs != [] { assert hs == hs[..|hs| - 1] + [hs[|hs| - 1]]; }
  }

  lemma {:induction false} ArrangeMembers(order: seq<Key>, hs: seq<Hit>, h: Hit)
    ensures h in Arrange(order, hs) <==> h in hs
  {
    if hs != [] {
      ArrangeMembers(order, hs[..|hs| - 1], h);
      InsertMembers(order, hs[|hs| - 1], Arrange(order, hs[..|hs| - 1]), h);
      assert hs == hs[..|hs| - 1] + [hs[|hs| - 1]];
    }
  }

  lemma {:induction false} FilterMembers(ps: seq<Pred>, hs: seq<Hit>, h: Hit)
    ensures h in Filter(ps, hs) <==> h in hs && HoldsAll(ps, h.row)
  {
    if hs != [] {
      FilterMembers(ps, hs[..|hs| - 1], h);
      assert hs == hs[..|hs| - 1] + [hs[|hs| - 1]];
    }
  }

  lemma {:induction false} FilterLength(ks: seq<Pred>, hs: seq<Hit>)
    ensures |Filter(ks, hs)| <= |hs|
    ensures |Filter(ks, hs)| == |hs| <==> forall i | 0 <= i < |hs| :: HoldsAll(ks, hs[i].row)
    ensures |Filter(ks, hs)| == |hs| ==> Filter(ks, hs) == hs
  {
    if hs != [] { FilterLength(ks, hs[..|hs| - 1]); }
  }

  /** Every hit comes from the table (or the join) and satisfies every predicate; without a page, all such rows are
      hit. */
  lemma HitsMembers(db: Database, q: Request, h: Hit)
    ensures h in Hits(db, q) ==> h in Base(db, q) && HoldsAll(q.preds, h.row)
    ensures q.limit == 0 && q.offset == 0 && h in Base(db, q) && HoldsAll(q.preds, h.row) ==> h in Hits(db, q)
  {
    FilterMembers(q.preds, Arrange(q.order, Base(db, q)), h);
    ArrangeMembers(q.order, Base(db, q), h);
  }

  lemma {:induction false} MatchingMembers(rows: seq<Row>, id: int, owner: int, h: Hit)
    ensures h in Matching(rows, id, owner) <==> h.row in rows && h.row.id == id && h.owner == owner
  {
    if rows != [] {
      MatchingMembers(rows[..|rows| - 1], id, owner, h);
      assert rows == rows[..|rows| - 1] + [rows[|rows| - 1]];
    }
  }

  /** Link row l names account `a` and group `g`. */
  predicate Links(l: Row, a: int, g: int) {
    RefAt(l.cells, AccountID) == Some(a) && RefAt(l.cells, GroupID) == Some(g)
  }

  /** Some link row names account `a` and group `g`. */
  predicate Linking(links: seq<Row>, a: int, g: int) {
    exists l | l in links :: Links(l, a, g)
  }

  /** The join pairs exactly the linked accounts among `ids` with the rows they are linked to. */
  lemma {:induction false} JoinMembers(links: seq<Row>, rows: seq<Row>, ids: seq<int>, h: Hit)
    ensures h in JoinHits(links, rows, ids) <==> h.row in rows && h.owner in ids && Linking(links, h.owner, h.row.id)
  {
    if links != [] {
      var front, l := links[..|links| - 1], links[|links| - 1];
      assert links == front + [l];
      JoinMembers(front, rows, ids, h);
      assert Linking(links, h.owner, h.row.id) <==>
          Linking(front, h.owner, h.row.id) || Links(l, h.owner, h.row.id) by {
        if Links(l, h.owner, h.row.id) { assert l in links; }
      }
      var a, g := RefAt(l.cells, AccountID), RefAt(l.cells, GroupID);
      if a.Some? && g.Some? { MatchingMembers(rows, g.value, a.value, h); }
    }
  }

  /** Some account among `ids` is linked to group `g`. */
  predicate LinkedToAny(links: seq<Row>, ids: seq<int>, g: int) {
    exists a | a in ids :: Linking(links, a, g)
  }

  /** Each batch has an account that is linked to group `g`. */
  predicate LinkedToEach(links: seq<Row>, joins: seq<seq<int>>, g: int) {
    forall m | 0 <= m < |joins| :: LinkedToAny(links, joins[m], g)
  }

  lemma EachBatch(links: seq<Row>, joins: seq<seq<int>>, g: int)
    requires joins != []
    ensures LinkedToEach(links, joins, g) <==>
            LinkedToEach(links, joins[..|joins| - 1], g) && LinkedToAny(links, joins[|joins| - 1], g)
  {
    var front := joins[..|joins| - 1];
    assert forall m | 0 <= m < |front| :: front[m] == joins[m];
  }

  lemma {:induction false} LinksOfMembers(links: seq<Row>, r: Row, ids: seq<int>, h: Hit)
    ensures h in LinksOf(links, r, ids) <==> h.row == r && h.owner in ids && Linking(links, h.owner, r.id)
  {
    if links != [] {
      var front, l := links[..|links| - 1], links[|links| - 1];
      assert links == front + [l];
      LinksOfMembers(front, r, ids, h);
      assert Linking(links, h.owner, r.id) <==> Linking(front, h.owner, r.id) || Links(l, h.owner, r.id) by {
        if Links(l, h.owner, r.id) { assert l in links; }
      }
    }
  }

  lemma {:induction false} JoinAgainMembers(links: seq<Row>, hits: seq<Hit>, ids: seq<int>, h: Hit)
    ensures h in JoinAgain(links, hits, ids) <==>
            IsHit(hits, h.row) && h.owner in ids && Linking(links, h.owner, h.row.id)
  {
    if hits != [] {
      var front, last := hits[..|hits| - 1], hits[|hits| - 1];
      assert hits == front + [last];
      JoinAgainMembers(links, front, ids, h);
      LinksOfMembers(links, last.row, ids, h);
      assert IsHit(hits, h.row) <==> IsHit(front, h.row) || last.row == h.row by {
        if last.row == h.row { assert last in hits; }
      }
    }
  }

  /** Joined again and again, the rows are those linked to an account of every batch. */
  lemma {:induction false} JoinAllMembers(links: seq<Row>, rows: seq<Row>, joins: seq<seq<int>>, h: Hit)
    requires joins != []
    ensures h in JoinAll(links, rows, joins) <==>
            && h.row in rows && h.owner in joins[|joins| - 1] && Linking(links, h.owner, h.row.id)
            && LinkedToEach(links, joins[..|joins| - 1], h.row.id)
    decreases |joins|, 0
  {
    if |joins| == 1 {
      JoinMembers(links, rows, joins[0], h);
    } else {
      var front, ids := joins[..|joins| - 1], joins[|joins| - 1];
      JoinAgainMembers(links, JoinAll(links, rows, front), ids, h);
      JoinedOnce(links, rows, front, h.row);
    }
  }

  lemma {:induction false} JoinedOnce(links: seq<Row>, rows: seq<Row>, joins: seq<seq<int>>, r: Row)
    requires joins != []
    ensures IsHit(JoinAll(links, rows, joins), r) <==>
            r in rows && LinkedToEach(links, joins, r.id)
    decreases |joins|, 1
  {
    EachBatch(links, joins, r.id);
    var hits, ids := JoinAll(links, rows, joins), joins[|joins| - 1];
    if IsHit(hits, r) {
      var h :| h in hits && h.row == r;
      JoinAllMembers(links, rows, joins, h);
      assert LinkedToAny(links, ids, r.id);
    }
    if r in rows && LinkedToEach(links, joins, r.id) {
      var a :| a in ids && Linking(links, a, r.id);
      JoinAllMembers(links, rows, joins, Hit(a, r));
    }
  }

  // ---------------------------------------------------------------- distinct ids

  ghost predicate DistinctRows(hs: seq<Hit>) {
    forall i, j | 0 <= i < j < |hs| :: hs[i].row.id != hs[j].row.id
  }

  lemma {:induction false} InsertDistinct(order: seq<Key>, x: Hit, hs: seq<Hit>)
    requires DistinctRows(hs) && forall h | h in hs :: h.row.id != x.row.id
    ensures DistinctRows(Insert(order, x, hs))
  {
    if hs != [] && !Precedes(order, hs[|hs| - 1].row, x.row) {
      var front, last := hs[..|hs| - 1], hs[|hs| - 1];
      InsertDistinct(order, x, front);
      forall i | 0 <= i < |Insert(order, x, front)| ensures Insert(order, x, front)[i].row.id != last.row.id {
        InsertMembers(order, x, front, Insert(order, x, front)[i]);
        assert last in hs;
      }
    }
  }

  lemma {:induction false} ArrangeDistinct(order: seq<Key>, hs: seq<Hit>)
    requires DistinctRows(hs)
    ensures DistinctRows(Arrange(order, hs))
  {
    if hs != [] {
      var front, last := hs[..|hs| - 1], hs[|hs| - 1];
      ArrangeDistinct(order, front);
      forall h | h in Arrange(order, front) ensures h.row.id != last.row.id {
        ArrangeMembers(order, front, h);
      }
      InsertDistinct(order, last, Arrange(order, front));
    }
  }

  lemma {:induction false} FilterDistinct(ps: seq<Pred>, hs: seq<Hit>)
    requires DistinctRows(hs)
    ensures DistinctRows(Filter(ps, hs))
  {
    if hs != [] {
      var front := hs[..|hs| - 1];
      FilterDistinct(ps, front);
      forall h | h in Filter(ps, front) ensures h.row.id != hs[|hs| - 1].row.id {
        FilterMembers(ps, front, h);
      }
    }
  }

  /** Some hit is the row r. */
  predicate IsHit(hs: seq<Hit>, r: Row) {
    exists h | h in hs :: h.row == r
  }

  predicate HasRowID(rs: seq<Row>, id: int) {
    exists r | r in rs :: r.id == id
  }

  lemma {:induction false} FirstSeenRows(hs: seq<Hit>, r: Row)
    requires r in FirstSeen(hs)
    ensures IsHit(hs, r)
  {
    var front, last := hs[..|hs| - 1], hs[|hs| - 1];
    assert hs == front + [last];
    if r in FirstSeen(front) {
      FirstSeenRows(front, r);
      var h :| h in front && h.row == r;
      assert h in hs;
    } else {
      assert last in hs;
    }
  }

  /** First appearance keeps exactly the ids that were hit. */
  lemma {:induction false} FirstSeenIDs(hs: seq<Hit>, id: int)
    ensures HasRowID(FirstSeen(hs), id) <==> Seen(hs, id)
  {
    if hs != [] {
      var front, last := hs[..|hs| - 1], hs[|hs| - 1];
      assert hs == front + [last];
      FirstSeenIDs(front, id);
      assert Seen(hs, id) <==> Seen(front, id) || last.row.id == id;
      if !Seen(front, last.row.id) {
        assert FirstSeen(hs) == FirstSeen(front) + [last.row];
        assert HasRowID(FirstSeen(hs), id) <==> HasRowID(FirstSeen(front), id) || last.row.id == id by {
          assert last.row in FirstSeen(hs);
        }
      }
    }
  }

  lemma {:induction false} FirstSeenDistinct(hs: seq<Hit>)
    ensures UniqueIDs(FirstSeen(hs))
  {
    if hs != [] {
      var front, last := hs[..|hs| - 1], hs[|hs| - 1];
      FirstSeenDistinct(front);
      FirstSeenIDs(front, last.row.id);
    }
  }

  /** The nodes of one statement have distinct ids. */
  lemma NodeRowsDistinct(db: Database, q: Request)
    requires ValidDatabase(db) && HasID(q.table)
    ensures UniqueIDs(NodeRows(db, q))
  {
    if q.joins == [] {
      ArrangeDistinct(q.order, Base(db, q));
      FilterDistinct(q.preds, Arrange(q.order, Base(db, q)));
    } else {
      FirstSeenDistinct(Hits(db, q));
    }
  }

  // ---------------------------------------------------------------- fetched columns

  lemma {:induction false} WithoutMembers(cs: seq<Column>, c: Column, d: Column)
    ensures d in Without(cs, c) <==> d in cs && d != c
  {
    if cs != [] {
      WithoutMembers(cs[..|cs| - 1], c, d);
      assert cs == cs[..|cs| - 1] + [cs[|cs| - 1]];
    }
  }

  lemma {:induction false} AddKeysMembers(t: Table, cs: seq<Column>, loaded: seq<bool>, n: nat, c: Column)
    requires n <= |loaded| && n <= |Edges(t)|
    ensures c in AddKeys(t, cs, loaded, n) <==>
            c in cs || exists k | 0 <= k < n :: loaded[k] && Edges(t)[k].shape.M2O? && c == Ref(Edges(t)[k].shape.fk)
    ensures |cs| <= |AddKeys(t, cs, loaded, n)| && AddKeys(t, cs, loaded, n)[..|cs|] == cs
  {
    if n != 0 { AddKeysMembers(t, cs, loaded, n - 1, c); }
  }

  ghost predicate Fetches(cols: Option<seq<Column>>, c: Column) {
    cols.None? || c in cols.value
  }

  /** Whatever fields are selected, the id and the foreign key of every loaded many-to-one edge are fetched. */
  lemma KeysFetched(t: Table, fields: seq<Column>, loaded: seq<bool>)
    requires |loaded| == |Edges(t)|
    ensures HasID(t) ==> Fetches(FetchedColumns(t, fields, loaded), ID)
    ensures forall c | c in fields :: Fetches(FetchedColumns(t, fields, loaded), c)
    ensures forall k | 0 <= k < |loaded| && loaded[k] && Edges(t)[k].shape.M2O? ::
              Fetches(FetchedColumns(t, fields, loaded), Ref(Edges(t)[k].shape.fk))
  {
    var base := if HasID(t) then [ID] + Without(fields, ID) else fields;
    forall c | c == ID || c in fields
             || exists k | 0 <= k < |loaded| && loaded[k] && Edges(t)[k].shape.M2O? :: c == Ref(Edges(t)[k].shape.fk)
      ensures c in base || c in AddKeys(t, base, loaded, |loaded|) || (c == ID && !HasID(t))
    {
      WithoutMembers(fields, ID, c);
      AddKeysMembers(t, base, loaded, |loaded|, c);
    }
    forall c | c in base ensures c in AddKeys(t, base, loaded, |loaded|) {
      AddKeysMembers(t, base, loaded, |loaded|, c);
    }
  }

  /** A decoded node shows the fetched columns of its row unchanged. */
  lemma DecodeKeeps(t: Table, cols: Option<seq<Column>>, r: Row, fk: ForeignKey)
    ensures HasID(t) && Fetches(cols, ID) ==> Decode(t, cols, r).id == r.id
    ensures Fetches(cols, Ref(fk)) ==> RefAt(Decode(t, cols, r).cells, fk) == RefAt(r.cells, fk)
  {
  }

  /** Nodes carry the ids of their rows, and those ids are distinct. */
  lemma EntitiesDistinct(db: Database, p: Plan)
    requires WellTyped(p) && ValidDatabase(db) && HasID(p.table)
    ensures forall i | 0 <= i < |Entities(db, p)| :: Entities(db, p)[i].id == NodeRows(db, RequestOf(p))[i].id
    ensures forall i, j | 0 <= i < j < |Entities(db, p)| :: Entities(db, p)[i].id != Entities(db, p)[j].id
  {
    KeysFetched(p.table, p.fields, LoadedFlags(p));
    NodeRowsDistinct(db, RequestOf(p));
  }

  // ---------------------------------------------------------------- the neighbours of a batch

  /** The rows behind the nodes of a statement satisfy its predicates. */
  lemma NodeRowsHold(db: Database, q: Request, i: nat)
    requires i < |NodeRows(db, q)|
    ensures HoldsAll(q.preds, NodeRows(db, q)[i])
  {
    if q.joins == [] {
      HitsMembers(db, q, Hits(db, q)[i]);
    } else {
      var r := NodeRows(db, q)[i];
      FirstSeenRows(Hits(db, q), r);
      var h :| h in Hits(db, q) && h.row == r;
      HitsMembers(db, q, h);
    }
  }

  lemma {:induction false} TraverserIn(inters: seq<Interceptor>, i: nat) returns (j: nat)
    requires i < |inters| && inters[i].Traverser?
    ensures j < |TraverserPreds(inters)| && TraverserPreds(inters)[j] == inters[i].pred
  {
    if i == |inters| - 1 {
      j := |TraverserPreds(inters[..i])|;
    } else {
      j := TraverserIn(inters[..|inters| - 1], i);
    }
  }

  /** No row that a traverser of the builder rejects, such as a deleted one, becomes a node, at whatever depth the
      builder stands in the tree: its statement is prepared before it is sent. */
  lemma TraversersHold(db: Database, p: Plan, i: nat, r: Row)
    requires i < |p.inters| && p.inters[i].Traverser? && r in NodeRows(db, RequestOf(Prepared(p)))
    ensures Holds(p.inters[i].pred, r)
  {
    var q := RequestOf(Prepared(p));
    var n :| 0 <= n < |NodeRows(db, q)| && NodeRows(db, q)[n] == r;
    NodeRowsHold(db, q, n);
    var j := TraverserIn(p.inters, i);
    assert q.preds[|p.preds| + j] == p.inters[i].pred;
  }

  /** Every neighbour of a one-to-many batch names a node of the batch. */
  lemma OwnersKnown(db: Database, p: Plan, fk: ForeignKey, ids: seq<int>)
    requires WellTyped(p)
    ensures forall e | e in Entities(db, Sent(p, O2M(fk), ids)) :: KeyOf(e, fk).Some? && KeyOf(e, fk).value in ids
  {
    var q := Sent(p, O2M(fk), ids);
    KeysFetched(q.table, q.fields, LoadedFlags(q));
    forall i | 0 <= i < |Entities(db, q)|
      ensures KeyOf(Entities(db, q)[i], fk).Some? && KeyOf(Entities(db, q)[i], fk).value in ids
    {
      var r := NodeRows(db, RequestOf(q))[i];
      NodeRowsHold(db, RequestOf(q), i);
      assert q.preds[|p.preds|] == RefIn(fk, ids);
      DecodeKeeps(q.table, FetchedColumns(q.table, q.fields, LoadedFlags(q)), r, fk);
    }
  }

  /** Every neighbour of a many-to-one batch has one of the keys asked for. */
  lemma KeysKnown(db: Database, p: Plan, fk: ForeignKey, keys: seq<int>)
    requires WellTyped(p) && HasID(p.table)
    ensures forall e | e in Entities(db, Sent(p, M2O(fk), keys)) :: e.id in keys
  {
    var q := Sent(p, M2O(fk), keys);
    KeysFetched(q.table, q.fields, LoadedFlags(q));
    forall i | 0 <= i < |Entities(db, q)| ensures Entities(db, q)[i].id in keys {
      NodeRowsHold(db, RequestOf(q), i);
      assert q.preds[|p.preds|] == IDIn(keys);
    }
  }

  /** Every neighbour of a many-to-many batch was hit, and every hit is owned by an account of the batch. */
  lemma LinksKnown(db: Database, p: Plan, ids: seq<int>)
    requires WellTyped(p) && HasID(p.table)
    ensures forall e | e in Entities(db, Sent(p, M2M, ids)) :: Seen(Hits(db, RequestOf(Sent(p, M2M, ids))), e.id)
    ensures forall h | h in Hits(db, RequestOf(Sent(p, M2M, ids))) :: h.owner in ids
  {
    var q := Sent(p, M2M, ids);
    var hits := Hits(db, RequestOf(q));
    KeysFetched(q.table, q.fields, LoadedFlags(q));
    forall i | 0 <= i < |Entities(db, q)| ensures Seen(hits, Entities(db, q)[i].id) {
      var r := NodeRows(db, RequestOf(q))[i];
      assert r in FirstSeen(hits);
      FirstSeenIDs(hits, r.id);
    }
    forall i | 0 <= i < |hits| ensures hits[i].owner in ids {
      HitsMembers(db, RequestOf(q), hits[i]);
      JoinAllMembers(Rows(db, AccountGroups), Rows(db, q.table), q.joins, hits[i]);
    }
  }
}
