/**
 ORDER BY on a many-to-many edge: a loaded account has its neighbours in the order a query for that account alone would
 give them, whatever the links and the batch, if and only if the order terms tell the rows of the nested query apart
 (backend/ent/account_query.go:627-687, :895-901).
 */
module Ordering {
  import opened Wrappers
  import opened Schema
  import opened Plan
  import opened Eager
  import opened Selection
  import opened Refinement
  import opened Distribution

  lemma {:induction false} PrecedesTotal(order: seq<Key>, a: Row, b: Row)
    ensures Precedes(order, a, b) || Precedes(order, b, a)
  {
    if order != [] { PrecedesTotal(order[1..], a, b); }
  }

  lemma {:induction false} PrecedesTransitive(order: seq<Key>, a: Row, b: Row, c: Row)
    requires Precedes(order, a, b) && Precedes(order, b, c)
    ensures Precedes(order, a, c)
  {
    if order != [] {
      if order[0](a) == order[0](b) == order[0](c) { PrecedesTransitive(order[1..], a, b, c); }
    }
  }

  ghost predicate Sorted(order: seq<Key>, hs: seq<Hit>) {
    forall i, j | 0 <= i < j < |hs| :: Precedes(order, hs[i].row, hs[j].row)
  }

  lemma {:induction false} InsertSorted(order: seq<Key>, h: Hit, hs: seq<Hit>)
    requires Sorted(order, hs)
    ensures Sorted(order, Insert(order, h, hs))
  {
    if hs != [] {
      var front, last := hs[..|hs| - 1], hs[|hs| - 1];
      if Precedes(order, last.row, h.row) {
        forall i | 0 <= i < |hs| ensures Precedes(order, hs[i].row, h.row) {
          if i < |hs| - 1 { PrecedesTransitive(order, hs[i].row, last.row, h.row); }
        }
      } else {
        PrecedesTotal(order, last.row, h.row);
        InsertSorted(order, h, front);
        forall i | 0 <= i < |Insert(order, h, front)|
          ensures Precedes(order, Insert(order, h, front)[i].row, last.row)
        {
          InsertMembers(order, h, front, Insert(order, h, front)[i]);
        }
      }
    }
  }

  lemma {:induction false} ArrangeSorted(order: seq<Key>, hs: seq<Hit>)
    ensures Sorted(order, Arrange(order, hs))
  {
    if hs != [] {
      ArrangeSorted(order, hs[..|hs| - 1]);
      InsertSorted(order, hs[|hs| - 1], Arrange(order, hs[..|hs| - 1]));
    }
  }

  lemma {:induction false} FilterSorted(order: seq<Key>, ps: seq<Pred>, hs: seq<Hit>)
    requires Sorted(order, hs)
    ensures Sorted(order, Filter(ps, hs))
  {
    if hs != [] {
      var front, last := hs[..|hs| - 1], hs[|hs| - 1];
      FilterSorted(order, ps, front);
      forall i | 0 <= i < |Filter(ps, front)| ensures Precedes(order, Filter(ps, front)[i].row, last.row) {
        FilterMembers(ps, front, Filter(ps, front)[i]);
      }
    }
  }

  /** A statement returns its rows in the order of its terms. */
  lemma HitsSorted(db: Database, q: Request)
    ensures Sorted(q.order, Hits(db, q))
  {
    ArrangeSorted(q.order, Base(db, q));
    FilterSorted(q.order, q.preds, Arrange(q.order, Base(db, q)));
  }

  ghost predicate SortedRows(order: seq<Key>, rs: seq<Row>) {
    forall i, j | 0 <= i < j < |rs| :: Precedes(order, rs[i], rs[j])
  }

  lemma {:induction false} FirstSeenSorted(order: seq<Key>, hs: seq<Hit>)
    requires Sorted(order, hs)
    ensures SortedRows(order, FirstSeen(hs))
  {
    if hs != [] {
      var front, last := hs[..|hs| - 1], hs[|hs| - 1];
      FirstSeenSorted(order, front);
      forall i | 0 <= i < |FirstSeen(front)| ensures Precedes(order, FirstSeen(front)[i], last.row) {
        FirstSeenRows(front, FirstSeen(front)[i]);
        var h :| h in front && h.row == FirstSeen(front)[i];
      }
    }
  }

  lemma {:induction false} LinkedRowsSorted(order: seq<Key>, rows: seq<Row>, hits: seq<Hit>, id: int)
    requires SortedRows(order, rows) && UniqueIDs(rows)
    ensures SortedRows(order, LinkedRows(rows, hits, id))
  {
    if rows != [] {
      var front, last := rows[..|rows| - 1], rows[|rows| - 1];
      LinkedRowsSorted(order, front, hits, id);
      LinkedRowsMembers(front, hits, id);
      forall i | 0 <= i < |LinkedRows(front, hits, id)| ensures Precedes(order, LinkedRows(front, hits, id)[i], last) {
        assert LinkedRows(front, hits, id)[i] in LinkedRows(front, hits, id);
        var j :| 0 <= j < |front| && front[j] == LinkedRows(front, hits, id)[i];
      }
    }
  }

  /** The order terms tell any two rows with different ids apart. */
  ghost predicate Separates(order: seq<Key>, rows: seq<Row>) {
    forall r, s | r in rows && s in rows && r.id != s.id :: !Tied(order, r, s)
  }

  predicate Tied(order: seq<Key>, r: Row, s: Row) {
    Precedes(order, r, s) && Precedes(order, s, r)
  }

  ghost predicate SameElements(a: seq<Row>, b: seq<Row>) {
    forall r :: r in a <==> r in b
  }

  /** Then there is only one way to sort them. */
  lemma {:induction false} SortedOnce(order: seq<Key>, a: seq<Row>, b: seq<Row>)
    requires Separates(order, a)
    requires SortedRows(order, a) && SortedRows(order, b) && UniqueIDs(a) && UniqueIDs(b) && SameElements(a, b)
    ensures a == b
  {
    if a == [] {
      if b != [] { HasElement(b); }
    } else {
      var x := a[|a| - 1];
      assert x in a && x in b;
      LastAgrees(order, a, b);
      FrontsAgree(a, b);
      SortedOnce(order, a[..|a| - 1], b[..|b| - 1]);
      assert a == a[..|a| - 1] + [x] && b == b[..|b| - 1] + [x];
    }
  }

  lemma HasElement(b: seq<Row>)
    requires b != []
    ensures exists r :: r in b
  {
    assert b[0] in b;
  }

  lemma LastAgrees(order: seq<Key>, a: seq<Row>, b: seq<Row>)
    requires Separates(order, a) && UniqueIDs(a)
    requires SortedRows(order, a) && SortedRows(order, b) && a != [] && b != [] && SameElements(a, b)
    ensures a[|a| - 1] == b[|b| - 1]
  {
    var x, y := a[|a| - 1], b[|b| - 1];
    assert x in a && y in b;
    var i :| 0 <= i < |b| && b[i] == x;
    var j :| 0 <= j < |a| && a[j] == y;
    if x.id != y.id {
      assert false;
    }
    UniqueRow(a, x, y);
  }

  lemma FrontsAgree(a: seq<Row>, b: seq<Row>)
    requires UniqueIDs(a) && UniqueIDs(b) && a != [] && b != [] && a[|a| - 1] == b[|b| - 1] && SameElements(a, b)
    ensures SameElements(a[..|a| - 1], b[..|b| - 1])
  {
    var c, d := a[..|a| - 1], b[..|b| - 1];
    forall r ensures r in c <==> r in d {
      InFront(a, r);
      InFront(b, r);
    }
  }

  lemma InFront(a: seq<Row>, r: Row)
    requires UniqueIDs(a) && a != []
    ensures r in a[..|a| - 1] <==> r in a && r != a[|a| - 1]
  {
    assert a == a[..|a| - 1] + [a[|a| - 1]];
  }

  // ---------------------------------------------------------------- where the terms tell the rows apart

  /** The row satisfies every predicate of the nested query, those its traversers append included. */
  ghost predicate Selected(sub: Plan, r: Row) {
    HoldsAll(sub.preds + TraverserPreds(sub.inters), r)
  }

  /** No two of the groups the nested query selects are tied under its order terms. */
  ghost predicate Discerns(sub: Plan, groups: seq<Row>) {
    forall r, s | r in groups && s in groups && r.id != s.id && Selected(sub, r) && Selected(sub, s) ::
      !Tied(sub.order, r, s)
  }

  /** The rows account `id` gets out of the batch `ids`, and those of a query of its own, in order. */
  ghost function BatchShare(db: Database, sub: Plan, ids: seq<int>, id: int): seq<Row>
    requires WellTyped(sub)
  {
    var hits := Hits(db, RequestOf(Sent(sub, M2M, ids)));
    LinkedRows(FirstSeen(hits), hits, id)
  }

  ghost function OwnShare(db: Database, sub: Plan, id: int): seq<Row>
    requires WellTyped(sub)
  {
    NodeRows(db, RequestOf(Sent(sub, M2M, [id])))
  }

  /** Both are the same rows, each once, and the query selects them all. */
  lemma SameShare(db: Database, sub: Plan, ids: seq<int>, id: int)
    requires WellTyped(sub) && sub.table == Groups && ValidDatabase(db) && id in ids
    requires sub.joins == [] && sub.limit.GetOr(0) == 0 && sub.offset.GetOr(0) == 0
    ensures SameElements(BatchShare(db, sub, ids, id), OwnShare(db, sub, id))
    ensures forall r | r in BatchShare(db, sub, ids, id) :: r in Rows(db, Groups) && Selected(sub, r)
    ensures UniqueIDs(BatchShare(db, sub, ids, id)) && UniqueIDs(OwnShare(db, sub, id))
  {
    var batch, alone := RequestOf(Sent(sub, M2M, ids)), RequestOf(Sent(sub, M2M, [id]));
    var hits := Hits(db, batch);
    FirstSeenDistinct(hits);
    FirstSeenDistinct(Hits(db, alone));
    LinkedRowsMembers(FirstSeen(hits), hits, id);
    forall r ensures r in FirstSeen(hits) && Linked(hits, id, r.id) <==> IsLinkedRow(db, batch, id, r)
             ensures r in NodeRows(db, alone) <==> IsLinkedRow(db, alone, id, r)
    {
      JoinedRows(db, batch, id, r);
      JoinedRows(db, alone, id, r);
      if r in NodeRows(db, alone) { OwnRows(db, alone, id, r); }
    }
    assert forall r :: IsLinkedRow(db, batch, id, r) <==> IsLinkedRow(db, alone, id, r);
  }

  lemma OrderedJoin(db: Database, sub: Plan, ids: seq<int>, id: int)
    requires WellTyped(sub) && sub.table == Groups && ValidDatabase(db) && id in ids
    requires sub.joins == [] && sub.limit.GetOr(0) == 0 && sub.offset.GetOr(0) == 0
    requires Discerns(sub, Rows(db, Groups))
    ensures BatchShare(db, sub, ids, id) == OwnShare(db, sub, id)
  {
    SameShare(db, sub, ids, id);
    JoinSorted(db, RequestOf(Sent(sub, M2M, ids)), id);
    OwnSorted(db, RequestOf(Sent(sub, M2M, [id])));
    assert Separates(sub.order, BatchShare(db, sub, ids, id));
    SortedOnce(sub.order, BatchShare(db, sub, ids, id), OwnShare(db, sub, id));
  }

  lemma OwnSorted(db: Database, q: Request)
    requires q.joins != []
    ensures SortedRows(q.order, NodeRows(db, q))
  {
    HitsSorted(db, q);
    FirstSeenSorted(q.order, Hits(db, q));
  }

  lemma JoinSorted(db: Database, q: Request, id: int)
    ensures SortedRows(q.order, LinkedRows(FirstSeen(Hits(db, q)), Hits(db, q), id))
  {
    HitsSorted(db, q);
    FirstSeenSorted(q.order, Hits(db, q));
    FirstSeenDistinct(Hits(db, q));
    LinkedRowsSorted(q.order, FirstSeen(Hits(db, q)), Hits(db, q), id);
  }

  // ---------------------------------------------------------------- where they do not

  function LinkRow(account: int, group: int): Row {
    Row(0, map[Ref(AccountID) := Int(account), Ref(GroupID) := Int(group)])
  }

  /** Accounts a and b, and the links a-r, b-s, b-r. */
  function Crossed(groups: seq<Row>, a: int, b: int, r: int, s: int): Database {
    Database(map[Accounts := [Row(a, map[]), Row(b, map[])],
                 Groups := groups,
                 AccountGroups := [LinkRow(a, r), LinkRow(b, s), LinkRow(b, r)]])
  }

  lemma CrossedValid(groups: seq<Row>, a: int, b: int, r: int, s: int)
    requires UniqueIDs(groups) && a != b
    ensures ValidDatabase(Crossed(groups, a, b, r, s))
  {
  }

  lemma {:induction false} MatchingNone(rows: seq<Row>, id: int, owner: int)
    requires forall r | r in rows :: r.id != id
    ensures Matching(rows, id, owner) == []
  {
    if rows != [] { MatchingNone(rows[..|rows| - 1], id, owner); }
  }

  lemma {:induction false} MatchingOne(rows: seq<Row>, r: Row, owner: int)
    requires UniqueIDs(rows) && r in rows
    ensures Matching(rows, r.id, owner) == [Hit(owner, r)]
  {
    var front, last := rows[..|rows| - 1], rows[|rows| - 1];
    assert rows == front + [last];
    if last.id == r.id {
      UniqueRow(rows, r, last);
      MatchingNone(front, r.id, owner);
    } else {
      MatchingOne(front, r, owner);
    }
  }

  /** What one link contributes to a join. */
  function LinkHits(l: Row, rows: seq<Row>, ids: seq<int>): seq<Hit> {
    var a, g := RefAt(l.cells, AccountID), RefAt(l.cells, GroupID);
    if a.Some? && g.Some? && a.value in ids then Matching(rows, g.value, a.value) else []
  }

  lemma JoinThree(x: Row, y: Row, z: Row, rows: seq<Row>, ids: seq<int>)
    ensures JoinHits([x, y, z], rows, ids) == LinkHits(x, rows, ids) + LinkHits(y, rows, ids) + LinkHits(z, rows, ids)
  {
    assert [x, y, z][..2] == [x, y] && [x, y][..1] == [x] && [x][..0] == [];
    assert JoinHits([x], rows, ids) == LinkHits(x, rows, ids);
    assert JoinHits([x, y], rows, ids) == JoinHits([x], rows, ids) + LinkHits(y, rows, ids);
  }

  lemma LinkOne(account: int, rows: seq<Row>, r: Row, ids: seq<int>)
    requires UniqueIDs(rows) && r in rows
    ensures LinkHits(LinkRow(account, r.id), rows, ids) == if account in ids then [Hit(account, r)] else []
  {
    MatchingOne(rows, r, account);
  }

  /** What the links a-r, b-s, b-r join to, in the batch and for b alone. */
  lemma CrossedHits(groups: seq<Row>, a: int, b: int, r: Row, s: Row, ids: seq<int>)
    requires UniqueIDs(groups) && r in groups && s in groups && b in ids
    ensures JoinHits([LinkRow(a, r.id), LinkRow(b, s.id), LinkRow(b, r.id)], groups, ids) ==
            (if a in ids then [Hit(a, r)] else []) + [Hit(b, s), Hit(b, r)]
  {
    JoinThree(LinkRow(a, r.id), LinkRow(b, s.id), LinkRow(b, r.id), groups, ids);
    LinkOne(a, groups, r, ids);
    LinkOne(b, groups, s, ids);
    LinkOne(b, groups, r, ids);
  }

  /** Sorting is stable: hits already in order stay as they are. */
  lemma {:induction false} ArrangeStable(order: seq<Key>, hs: seq<Hit>)
    requires Sorted(order, hs)
    ensures Arrange(order, hs) == hs
  {
    if hs != [] { ArrangeStable(order, hs[..|hs| - 1]); }
  }

  lemma SelectedHits(db: Database, q: Request, hs: seq<Hit>)
    requires Base(db, q) == hs && q.limit == 0 && q.offset == 0 && Sorted(q.order, hs)
    requires forall i | 0 <= i < |hs| :: HoldsAll(q.preds, hs[i].row)
    ensures Hits(db, q) == hs
  {
    ArrangeStable(q.order, hs);
    FilterLength(q.preds, hs);
  }

  lemma TwoSeen(a: Hit, b: Hit)
    requires a.row.id != b.row.id
    ensures FirstSeen([a, b]) == [a.row, b.row]
  {
    assert [a, b][..1] == [a] && [a][..0] == [];
    assert !Seen([], a.row.id) && !Seen([a], b.row.id);
    assert FirstSeen([a]) == [a.row];
  }

  lemma TwoLinked(hits: seq<Hit>, r: Row, s: Row, id: int)
    requires Linked(hits, id, r.id) && Linked(hits, id, s.id)
    ensures LinkedRows([r, s], hits, id) == [r, s]
  {
    assert [r, s][..1] == [r] && [r][..0] == [];
    assert LinkedRows([r], hits, id) == [r];
  }

  /** In the batch, b's groups come in the order in which they first appear for any account. */
  lemma CrossedSeen(a: int, b: int, r: Row, s: Row)
    requires r.id != s.id
    ensures var hits := [Hit(a, r), Hit(b, s), Hit(b, r)]; LinkedRows(FirstSeen(hits), hits, b) == [r, s]
  {
    var x, y, z := Hit(a, r), Hit(b, s), Hit(b, r);
    var hits := [x, y, z];
    TwoSeen(x, y);
    assert hits[..2] == [x, y];
    assert Seen([x, y], r.id) by { assert x in [x, y]; }
    assert FirstSeen(hits) == [r, s];
    assert y in hits && z in hits;
    TwoLinked(hits, r, s, b);
  }

  lemma OneAndTwo<T>(x: T, y: T, z: T)
    ensures [x] + [y, z] == [x, y, z]
  {
  }

  /** Two groups the nested query selects and its order does not tell apart come the other way round in a batch. */
  lemma TiedDiffer(sub: Plan, groups: seq<Row>, a: int, b: int, r: Row, s: Row)
    requires WellTyped(sub) && sub.table == Groups && UniqueIDs(groups) && a != b
    requires sub.joins == [] && sub.limit.GetOr(0) == 0 && sub.offset.GetOr(0) == 0
    requires r in groups && s in groups && r.id != s.id && Selected(sub, r) && Selected(sub, s) && Tied(sub.order, r, s)
    ensures var db := Crossed(groups, a, b, r.id, s.id);
              BatchShare(db, sub, [a, b], b) == [r, s] && OwnShare(db, sub, b) == [s, r]
  {
    var db := Crossed(groups, a, b, r.id, s.id);
    CrossedRun(db, sub, groups, a, b, r, s, [a, b]);
    CrossedRun(db, sub, groups, a, b, r, s, [b]);
    OneAndTwo(Hit(a, r), Hit(b, s), Hit(b, r));
    CrossedSeen(a, b, r, s);
    TwoSeen(Hit(b, s), Hit(b, r));
  }

  lemma CrossedRun(db: Database, sub: Plan, groups: seq<Row>, a: int, b: int, r: Row, s: Row, ids: seq<int>)
    requires WellTyped(sub) && sub.table == Groups && UniqueIDs(groups)
    requires db == Crossed(groups, a, b, r.id, s.id) && b in ids
    requires sub.joins == [] && sub.limit.GetOr(0) == 0 && sub.offset.GetOr(0) == 0
    requires r in groups && s in groups && Selected(sub, r) && Selected(sub, s) && Tied(sub.order, r, s)
    ensures Hits(db, RequestOf(Sent(sub, M2M, ids))) == (if a in ids then [Hit(a, r)] else []) + [Hit(b, s), Hit(b, r)]
  {
    PrecedesTotal(sub.order, r, r);
    CrossedHits(groups, a, b, r, s, ids);
    SelectedHits(db, RequestOf(Sent(sub, M2M, ids)), (if a in ids then [Hit(a, r)] else []) + [Hit(b, s), Hit(b, r)]);
  }

  // ---------------------------------------------------------------- exactly then

  /** Edge k holds, for every database with these groups and every node of every batch, what a query for the node alone
      returns, in the same order. */
  ghost predicate KeepsOrder(p: Plan, k: nat, groups: seq<Row>)
    requires WellTyped(p) && k < |p.subs|
  {
    forall db, ents: seq<Entity>, i | ValidDatabase(db) && Rows(db, Groups) == groups && 0 <= i < |ents| ::
      LoadEdge(db, p, ents, i, k) == LookUpEdge(db, p, ents[i], k)
  }

  /** A many-to-many edge as rows, loaded in a batch and looked up. */
  lemma EdgeRows(db: Database, p: Plan, ents: seq<Entity>, i: nat, k: nat)
    requires WellTyped(p) && i < |ents| && k < |p.subs| && p.subs[k].Some? && Edges(p.table)[k].shape.M2M?
    requires p.subs[k].value.joins == []
    ensures var sub := p.subs[k].value;
              && LoadEdge(db, p, ents, i, k) == Many(LeafVals(sub, BatchShare(db, sub, IDs(ents), ents[i].id)))
              && LookUpEdge(db, p, ents[i], k) == Many(LeafVals(sub, OwnShare(db, sub, ents[i].id)))
  {
    var sub, e := p.subs[k].value, ents[i];
    assert IDs([e]) == [e.id];
    LoadedJoin(db, p, ents, i, k);
    PreparedHeight(Batch(p, [e], k));
    LeafEval(db, Batch(p, [e], k));
    SameLeaves(sub, Sent(sub, M2M, IDs(ents)), BatchShare(db, sub, IDs(ents), e.id));
    SameLeaves(sub, Sent(sub, M2M, [e.id]), OwnShare(db, sub, e.id));
  }

  lemma SameLeaves(p: Plan, q: Plan, rows: seq<Row>)
    requires WellTyped(p) && WellTyped(q) && p.table == q.table && p.fields == q.fields && p.subs == q.subs
    ensures LeafVals(p, rows) == LeafVals(q, rows)
  {
    assert LoadedFlags(p) == LoadedFlags(q);
  }

  /** The order of a many-to-many edge is that of the account's own query, for every link table and every batch, if and
      only if the order terms tell apart the groups that the nested query selects. */
  lemma OrderExact(p: Plan, k: nat, groups: seq<Row>)
    requires WellTyped(p) && k < |p.subs| && p.subs[k].Some? && Edges(p.table)[k].shape.M2M? && UniqueIDs(groups)
    requires var sub := p.subs[k].value; sub.joins == [] && sub.limit.GetOr(0) == 0 && sub.offset.GetOr(0) == 0
    ensures KeepsOrder(p, k, groups) <==> Discerns(p.subs[k].value, groups)
  {
    if Discerns(p.subs[k].value, groups) {
      forall db, ents: seq<Entity>, i | ValidDatabase(db) && Rows(db, Groups) == groups && 0 <= i < |ents|
        ensures LoadEdge(db, p, ents, i, k) == LookUpEdge(db, p, ents[i], k)
      {
        SameOrder(db, p, ents, i, k);
      }
    } else {
      OrderLost(p, k, groups);
    }
  }

  lemma SameOrder(db: Database, p: Plan, ents: seq<Entity>, i: nat, k: nat)
    requires WellTyped(p) && i < |ents| && k < |p.subs| && p.subs[k].Some?
    requires Edges(p.table)[k].shape.M2M? && ValidDatabase(db)
    requires var sub := p.subs[k].value; sub.joins == [] && sub.limit.GetOr(0) == 0 && sub.offset.GetOr(0) == 0
    requires Discerns(p.subs[k].value, Rows(db, Groups))
    ensures LoadEdge(db, p, ents, i, k) == LookUpEdge(db, p, ents[i], k)
  {
    assert IDs(ents)[i] == ents[i].id;
    OrderedJoin(db, p.subs[k].value, IDs(ents), ents[i].id);
    EdgeRows(db, p, ents, i, k);
  }

  lemma OrderLost(p: Plan, k: nat, groups: seq<Row>)
    requires WellTyped(p) && k < |p.subs| && p.subs[k].Some? && Edges(p.table)[k].shape.M2M? && UniqueIDs(groups)
    requires var sub := p.subs[k].value; sub.joins == [] && sub.limit.GetOr(0) == 0 && sub.offset.GetOr(0) == 0
    requires !Discerns(p.subs[k].value, groups)
    ensures !KeepsOrder(p, k, groups)
  {
    var sub := p.subs[k].value;
    var r, s :| r in groups && s in groups && r.id != s.id && Selected(sub, r) && Selected(sub, s)
        && Tied(sub.order, r, s);
    LostBetween(p, k, groups, [Entity(1, map[]), Entity(2, map[])], r, s);
  }

  lemma LostBetween(p: Plan, k: nat, groups: seq<Row>, ents: seq<Entity>, r: Row, s: Row)
    requires WellTyped(p) && k < |p.subs| && p.subs[k].Some? && Edges(p.table)[k].shape.M2M? && UniqueIDs(groups)
    requires var sub := p.subs[k].value;
               && sub.joins == [] && sub.limit.GetOr(0) == 0 && sub.offset.GetOr(0) == 0
               && Selected(sub, r) && Selected(sub, s) && Tied(sub.order, r, s)
    requires r in groups && s in groups && r.id != s.id && |ents| == 2 && ents[0].id != ents[1].id
    ensures !KeepsOrder(p, k, groups)
  {
    CrossedValid(groups, ents[0].id, ents[1].id, r.id, s.id);
    TiedEdges(p, k, groups, ents, r, s);
    assert Rows(Crossed(groups, ents[0].id, ents[1].id, r.id, s.id), Groups) == groups;
  }

  /** The two edges of the second account differ. */
  lemma TiedEdges(p: Plan, k: nat, groups: seq<Row>, ents: seq<Entity>, r: Row, s: Row)
    requires WellTyped(p) && k < |p.subs| && p.subs[k].Some? && Edges(p.table)[k].shape.M2M? && UniqueIDs(groups)
    requires var sub := p.subs[k].value;
               && sub.joins == [] && sub.limit.GetOr(0) == 0 && sub.offset.GetOr(0) == 0
               && Selected(sub, r) && Selected(sub, s) && Tied(sub.order, r, s)
    requires r in groups && s in groups && r.id != s.id && |ents| == 2 && ents[0].id != ents[1].id
    ensures var db := Crossed(groups, ents[0].id, ents[1].id, r.id, s.id);
              var sub := p.subs[k].value;
              && WellTyped(sub)
              && LoadEdge(db, p, ents, 1, k) == Many(LeafVals(sub, [r, s]))
              && LookUpEdge(db, p, ents[1], k) == Many(LeafVals(sub, [s, r]))
              && LoadEdge(db, p, ents, 1, k) != LookUpEdge(db, p, ents[1], k)
  {
    var sub, a, b := p.subs[k].value, ents[0].id, ents[1].id;
    assert IDs(ents) == [a, b];
    TiedDiffer(sub, groups, a, b, r, s);
    EdgeRows(Crossed(groups, a, b, r.id, s.id), p, ents, 1, k);
    OtherWayRound(sub, r, s);
  }

  lemma OtherWayRound(q: Plan, r: Row, s: Row)
    requires WellTyped(q) && HasID(q.table) && r.id != s.id
    ensures LeafVals(q, [r, s]) != LeafVals(q, [s, r])
  {
    KeysFetched(q.table, q.fields, LoadedFlags(q));
    assert LeafVals(q, [r, s])[0].ent.id == r.id && LeafVals(q, [s, r])[0].ent.id == s.id;
  }

  // ---------------------------------------------------------------- a whole run

  /** A query for all accounts, whatever it loads with them. */
  ghost predicate ForAll(p: Plan) {
    && p.table == Accounts && p.fields == [] && p.limit == None && p.offset == None
    && p.order == [] && p.inters == [] && p.preds == [] && p.joins == []
  }

  /** Such a query, with groups that it orders by terms that do not tell r and s apart, or not at all, on the links a-r,
      b-s, b-r: loaded together with a, account b has its groups as r, s; looked up on its own it has them as s, r. */
  lemma JoinOrderDiffers(p: Plan, k: nat, a: int, b: int, r: Row, s: Row)
    requires WellTyped(p) && ForAll(p) && k < |p.subs| && p.subs[k].Some? && Edges(p.table)[k].shape.M2M?
    requires var sub := p.subs[k].value;
               && sub.joins == [] && sub.limit.GetOr(0) == 0 && sub.offset.GetOr(0) == 0
               && Selected(sub, r) && Selected(sub, s) && Tied(sub.order, r, s)
    requires a != b && r.id != s.id
    ensures var db, sub := Crossed([r, s], a, b, r.id, s.id), p.subs[k].value;
              && ValidDatabase(db) && |Eval(db, p)| == |Naive(db, p)| == 2
              && |Eval(db, p)[1].edges| == |Naive(db, p)[1].edges| == |p.subs| && WellTyped(sub)
              && Eval(db, p)[1].ent == Naive(db, p)[1].ent && Eval(db, p)[1].ent.id == b
              && Eval(db, p)[1].edges[k] == Many(LeafVals(sub, [r, s]))
              && Naive(db, p)[1].edges[k] == Many(LeafVals(sub, [s, r]))
              && Eval(db, p)[1].edges[k] != Naive(db, p)[1].edges[k]
  {
    var db, groups := Crossed([r, s], a, b, r.id, s.id), [r, s];
    assert r in groups && s in groups;
    CrossedValid(groups, a, b, r.id, s.id);
    TwoAccounts(db, p, Row(a, map[]), Row(b, map[]));
    RunEdges(db, p, 1, k);
    TiedEdges(p, k, groups, Entities(db, p), r, s);
  }

  function WithGroups(): Plan {
    NewPlan(Accounts, []).(subs := [Some(NewPlan(Groups, [])), None, None, None, None, None])
  }

  /** The plain query for accounts with their groups is one. */
  lemma UnorderedGroups(a: int, b: int, r: Row, s: Row)
    requires a != b && r.id != s.id
    ensures var db, p := Crossed([r, s], a, b, r.id, s.id), WithGroups();
              && ValidDatabase(db) && WellTyped(p) && |Eval(db, p)| == |Naive(db, p)| == 2
              && |Eval(db, p)[1].edges| == |Naive(db, p)[1].edges| == 6
              && Eval(db, p)[1].edges[0] != Naive(db, p)[1].edges[0]
  {
    JoinOrderDiffers(WithGroups(), 0, a, b, r, s);
  }

  lemma TwoAccounts(db: Database, p: Plan, r: Row, s: Row)
    requires WellTyped(p) && HasID(p.table) && p.fields == [] && Rows(db, p.table) == [r, s]
    requires p.joins == [] && p.preds == [] && p.order == [] && p.limit == None && p.offset == None
    ensures |Entities(db, p)| == 2 && Entities(db, p)[0].id == r.id && Entities(db, p)[1].id == s.id
  {
    TwoRows(db, RequestOf(p), r, s);
  }

  /** The edges of a run and of the per-node lookup, for a builder without traversers. */
  lemma RunEdges(db: Database, p: Plan, i: nat, k: nat)
    requires WellTyped(p) && p.inters == [] && i < |Entities(db, p)| && k < |p.subs|
    ensures |Eval(db, p)| == |Naive(db, p)| == |Entities(db, p)|
            && |Eval(db, p)[i].edges| == |Naive(db, p)[i].edges| == |p.subs|
    ensures Eval(db, p)[i].ent == Naive(db, p)[i].ent == Entities(db, p)[i]
    ensures Eval(db, p)[i].edges[k] == LoadEdge(db, p, Entities(db, p), i, k)
    ensures Naive(db, p)[i].edges[k] == LookUpEdge(db, p, Entities(db, p)[i], k)
  {
    assert p.preds + [] == p.preds;
    assert Prepared(p) == p;
    NaiveAt(db, p);
  }

  lemma TwoRows(db: Database, q: Request, r: Row, s: Row)
    requires Rows(db, q.table) == [r, s] && q.joins == [] && q.preds == [] && q.order == []
    requires q.limit == 0 && q.offset == 0
    ensures NodeRows(db, q) == [r, s]
  {
    var hs := [Hit(0, r), Hit(0, s)];
    assert Base(db, q) == hs;
    SelectedHits(db, q, hs);
  }
}
