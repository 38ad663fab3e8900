/**
 A limit on a nested query cuts the whole batch, not each node's share: when the shares still come out right, for every
 kind of edge (backend/ent/account_query.go:627-844, backend/ent/accountgroup_query.go:378-436).
 */
module Limits {
  import opened Wrappers
  import opened Schema
  import opened Plan
  import opened Eager
  import opened Selection
  import opened Refinement
  import opened Distribution
  import opened Ordering

  // ---------------------------------------------------------------- the share of one key

  /** The key of the batch a hit belongs to. */
  function OwnerOf(s: Shape, h: Hit): Option<int> {
    match s
    case M2M => Some(h.owner)
    case M2O(_) => Some(h.row.id)
    case O2M(fk) => RefAt(h.row.cells, fk)
  }

  /** The hits that belong to key `x`, in order. */
  function OfOwner(hs: seq<Hit>, s: Shape, x: int): seq<Hit> {
    if hs == [] then []
    else OfOwner(hs[..|hs| - 1], s, x) + (if OwnerOf(s, hs[|hs| - 1]) == Some(x) then [hs[|hs| - 1]] else [])
  }

  lemma {:induction false} OfOwnerConcat(a: seq<Hit>, b: seq<Hit>, s: Shape, x: int)
    ensures OfOwner(a + b, s, x) == OfOwner(a, s, x) + OfOwner(b, s, x)
  {
    if b == [] {
      assert a + b == a;
    } else {
      OfOwnerConcat(a, b[..|b| - 1], s, x);
      assert (a + b)[..|a + b| - 1] == a + b[..|b| - 1];
    }
  }

  lemma {:induction false} OfOwnerLength(hs: seq<Hit>, s: Shape, x: int)
    ensures |OfOwner(hs, s, x)| <= |hs|
    ensures |OfOwner(hs, s, x)| == |hs| <==> forall i | 0 <= i < |hs| :: OwnerOf(s, hs[i]) == Some(x)
    ensures |OfOwner(hs, s, x)| == 0 <==> forall i | 0 <= i < |hs| :: OwnerOf(s, hs[i]) != Some(x)
    ensures |OfOwner(hs, s, x)| == |hs| ==> OfOwner(hs, s, x) == hs
  {
    OfOwnerAll(hs, s, x);
    OfOwnerNone(hs, s, x);
  }

  lemma AllOneMore(hs: seq<Hit>, h: Hit, s: Shape, x: int)
    ensures (forall i | 0 <= i < |hs + [h]| :: OwnerOf(s, (hs + [h])[i]) == Some(x)) <==>
            (forall i | 0 <= i < |hs| :: OwnerOf(s, hs[i]) == Some(x)) && OwnerOf(s, h) == Some(x)
  {
    assert (hs + [h])[|hs|] == h;
    assert forall i | 0 <= i < |hs| :: (hs + [h])[i] == hs[i];
  }

  lemma {:induction false} OfOwnerAll(hs: seq<Hit>, s: Shape, x: int)
    ensures |OfOwner(hs, s, x)| <= |hs|
    ensures |OfOwner(hs, s, x)| == |hs| <==> forall i | 0 <= i < |hs| :: OwnerOf(s, hs[i]) == Some(x)
    ensures |OfOwner(hs, s, x)| == |hs| ==> OfOwner(hs, s, x) == hs
  {
    if hs != [] {
      var front, h := hs[..|hs| - 1], hs[|hs| - 1];
      OfOwnerAll(front, s, x);
      AllOneMore(front, h, s, x);
      assert hs == front + [h];
    }
  }

  lemma {:induction false} OfOwnerNone(hs: seq<Hit>, s: Shape, x: int)
    ensures |OfOwner(hs, s, x)| == 0 <==> forall i | 0 <= i < |hs| :: OwnerOf(s, hs[i]) != Some(x)
  {
    if hs != [] {
      var front := hs[..|hs| - 1];
      OfOwnerNone(front, s, x);
      assert forall i | 0 <= i < |front| :: hs[i] == front[i];
    }
  }

  lemma {:induction false} OfOwnerMembers(hs: seq<Hit>, s: Shape, x: int, h: Hit)
    ensures h in OfOwner(hs, s, x) <==> h in hs && OwnerOf(s, h) == Some(x)
  {
    if hs != [] {
      OfOwnerMembers(hs[..|hs| - 1], s, x, h);
      assert hs == hs[..|hs| - 1] + [hs[|hs| - 1]];
    }
  }

  /** All hits belong to the same key. */
  ghost predicate OneOwner(hs: seq<Hit>, s: Shape) {
    forall i, j | 0 <= i < |hs| && 0 <= j < |hs| :: OwnerOf(s, hs[i]) == OwnerOf(s, hs[j])
  }

  ghost predicate Owned(hs: seq<Hit>, s: Shape, keys: seq<int>) {
    forall h | h in hs :: OwnerOf(s, h).Some? && OwnerOf(s, h).value in keys
  }

  // ---------------------------------------------------------------- cutting and dividing

  /** Limiting the batch and then dividing it equals dividing it and then limiting every share, for every key,
      exactly when the limit does not bite or there is only one owner. */
  lemma LimitExactRows(hs: seq<Hit>, s: Shape, keys: seq<int>, limit: nat)
    requires limit > 0 && Owned(hs, s, keys)
    ensures (forall x | x in keys :: OfOwner(Page(0, limit, hs), s, x) == Page(0, limit, OfOwner(hs, s, x))) <==>
            |hs| <= limit || OneOwner(hs, s)
  {
    if |hs| <= limit || OneOwner(hs, s) {
      forall x | x in keys ensures OfOwner(Page(0, limit, hs), s, x) == Page(0, limit, OfOwner(hs, s, x)) {
        LimitAgrees(hs, s, limit, x);
      }
    } else {
      var x := LimitDiffers(hs, s, keys, limit);
    }
  }

  lemma LimitAgrees(hs: seq<Hit>, s: Shape, limit: nat, x: int)
    requires limit > 0 && (|hs| <= limit || OneOwner(hs, s))
    ensures OfOwner(Page(0, limit, hs), s, x) == Page(0, limit, OfOwner(hs, s, x))
  {
    assert hs[0..] == hs && OfOwner(hs, s, x)[0..] == OfOwner(hs, s, x);
    if |hs| > limit {
      FirstOnes(hs, s, limit);
      AllOrNone(hs, s, x);
      AllOrNone(hs[..limit], s, x);
    } else {
      OfOwnerAll(hs, s, x);
    }
  }

  lemma FirstOnes(hs: seq<Hit>, s: Shape, limit: nat)
    requires 0 < limit <= |hs| && OneOwner(hs, s)
    ensures OneOwner(hs[..limit], s) && hs[..limit][0] == hs[0]
  {
    forall i, j | 0 <= i < limit && 0 <= j < limit ensures OwnerOf(s, hs[..limit][i]) == OwnerOf(s, hs[..limit][j]) {
      assert OwnerOf(s, hs[i]) == OwnerOf(s, hs[j]);
    }
  }

  lemma AllOrNone(hs: seq<Hit>, s: Shape, x: int)
    requires OneOwner(hs, s) && hs != []
    ensures OfOwner(hs, s, x) == if OwnerOf(s, hs[0]) == Some(x) then hs else []
  {
    OfOwnerLength(hs, s, x);
    forall i | 0 <= i < |hs| ensures OwnerOf(s, hs[i]) == OwnerOf(s, hs[0]) {}
  }

  lemma LimitDiffers(hs: seq<Hit>, s: Shape, keys: seq<int>, limit: nat) returns (x: int)
    requires 0 < limit < |hs| && !OneOwner(hs, s) && Owned(hs, s, keys)
    ensures x in keys && OfOwner(Page(0, limit, hs), s, x) != Page(0, limit, OfOwner(hs, s, x))
  {
    x := KeyAt(hs, s, keys, limit);
    var j := limit;
    OfOwnerLength(hs[..limit], s, x);
    if |OfOwner(hs[..limit], s, x)| == limit {
      j := Another(hs, s, limit, x);
      var y := KeyAt(hs, s, keys, j);
      OtherKey(hs[..limit], s, x, y);
      x := y;
    }
    CutShort(hs, s, limit, j, x);
  }

  lemma KeyAt(hs: seq<Hit>, s: Shape, keys: seq<int>, i: nat) returns (x: int)
    requires i < |hs| && Owned(hs, s, keys)
    ensures OwnerOf(s, hs[i]) == Some(x) && x in keys
  {
    assert hs[i] in hs;
    x := OwnerOf(s, hs[i]).value;
  }

  /** Where every hit belongs to one key, none belongs to another. */
  lemma OtherKey(hs: seq<Hit>, s: Shape, x: int, y: int)
    requires hs != [] && x != y && |OfOwner(hs, s, x)| == |hs|
    ensures |OfOwner(hs, s, y)| < |hs|
  {
    OfOwnerLength(hs, s, x);
    OfOwnerLength(hs, s, y);
    assert OwnerOf(s, hs[0]) == Some(x);
  }

  /** An owner with a row past the limit, and with fewer rows than the limit before it, loses rows to the others. */
  lemma CutShort(hs: seq<Hit>, s: Shape, limit: nat, j: nat, x: int)
    requires 0 < limit <= j < |hs| && OwnerOf(s, hs[j]) == Some(x) && |OfOwner(hs[..limit], s, x)| < limit
    ensures OfOwner(Page(0, limit, hs), s, x) != Page(0, limit, OfOwner(hs, s, x))
  {
    SplitAt(hs, s, limit, x);
    HasOwn(hs[limit..], s, x, j - limit);
    assert Page(0, limit, hs) == hs[..limit] by { assert hs[0..] == hs; }
    assert |Page(0, limit, OfOwner(hs, s, x))| > |OfOwner(hs[..limit], s, x)|;
  }

  lemma SplitAt(hs: seq<Hit>, s: Shape, n: nat, x: int)
    requires n <= |hs|
    ensures OfOwner(hs, s, x) == OfOwner(hs[..n], s, x) + OfOwner(hs[n..], s, x)
  {
    assert hs == hs[..n] + hs[n..];
    OfOwnerConcat(hs[..n], hs[n..], s, x);
  }

  lemma HasOwn(hs: seq<Hit>, s: Shape, x: int, j: nat)
    requires j < |hs| && OwnerOf(s, hs[j]) == Some(x)
    ensures |OfOwner(hs, s, x)| > 0
  {
    OfOwnerLength(hs, s, x);
  }

  lemma Another(hs: seq<Hit>, s: Shape, limit: nat, x: int) returns (j: nat)
    requires !OneOwner(hs, s) && limit <= |hs| && |OfOwner(hs[..limit], s, x)| == limit
    ensures limit <= j < |hs| && OwnerOf(s, hs[j]) != Some(x)
  {
    NotAlone(hs, s, x);
    SplitAt(hs, s, limit, x);
    var k := NotOwned(hs[limit..], s, x);
    j := limit + k;
  }

  lemma NotAlone(hs: seq<Hit>, s: Shape, x: int)
    requires !OneOwner(hs, s)
    ensures |OfOwner(hs, s, x)| < |hs|
  {
    OfOwnerAll(hs, s, x);
  }

  lemma NotOwned(hs: seq<Hit>, s: Shape, x: int) returns (j: nat)
    requires |OfOwner(hs, s, x)| < |hs|
    ensures j < |hs| && OwnerOf(s, hs[j]) != Some(x)
  {
    OfOwnerAll(hs, s, x);
    j :| 0 <= j < |hs| && OwnerOf(s, hs[j]) != Some(x);
  }

  /** Both shares are the first rows of the same list, so they are equal as soon as they are equally long. */
  lemma SharesAreFirst(hs: seq<Hit>, s: Shape, limit: nat, x: int)
    ensures OfOwner(Page(0, limit, hs), s, x) <= OfOwner(hs, s, x)
    ensures Page(0, limit, OfOwner(hs, s, x)) <= OfOwner(hs, s, x)
    ensures |OfOwner(Page(0, limit, hs), s, x)| == |Page(0, limit, OfOwner(hs, s, x))| ==>
            OfOwner(Page(0, limit, hs), s, x) == Page(0, limit, OfOwner(hs, s, x))
  {
    assert hs[0..] == hs && OfOwner(hs, s, x)[0..] == OfOwner(hs, s, x);
    if |hs| > limit { SplitAt(hs, s, limit, x); }
  }

  // ---------------------------------------------------------------- the query for one key

  /** Adding the key to the predicates picks that key's rows. */
  lemma {:induction false} FilterKey(ps: seq<Pred>, qs: seq<Pred>, s: Shape, x: int, hs: seq<Hit>)
    requires forall h: Hit :: HoldsAll(qs, h.row) <==> HoldsAll(ps, h.row) && OwnerOf(s, h) == Some(x)
    ensures Filter(qs, hs) == OfOwner(Filter(ps, hs), s, x)
  {
    if hs != [] {
      var front, h := hs[..|hs| - 1], hs[|hs| - 1];
      FilterKey(ps, qs, s, x, front);
      if HoldsAll(ps, h.row) {
        assert Filter(ps, hs) == Filter(ps, front) + [h];
        OneMore(Filter(ps, front), h, s, x);
      } else {
        assert !HoldsAll(qs, h.row);
        assert Filter(ps, hs) == Filter(ps, front) && Filter(qs, hs) == Filter(qs, front);
      }
    }
  }

  lemma OneMore(hs: seq<Hit>, h: Hit, s: Shape, x: int)
    ensures OfOwner(hs + [h], s, x) == OfOwner(hs, s, x) + (if OwnerOf(s, h) == Some(x) then [h] else [])
  {
    assert (hs + [h])[..|hs|] == hs;
  }

  lemma {:induction false} FilterOwner(ps: seq<Pred>, hs: seq<Hit>, s: Shape, x: int)
    ensures Filter(ps, OfOwner(hs, s, x)) == OfOwner(Filter(ps, hs), s, x)
  {
    if hs != [] {
      var front, h := hs[..|hs| - 1], hs[|hs| - 1];
      FilterOwner(ps, front, s, x);
      if OwnerOf(s, h) == Some(x) {
        assert OfOwner(hs, s, x) == OfOwner(front, s, x) + [h];
        FilterMore(ps, OfOwner(front, s, x), h);
      } else {
        assert OfOwner(hs, s, x) == OfOwner(front, s, x);
      }
      if HoldsAll(ps, h.row) {
        assert Filter(ps, hs) == Filter(ps, front) + [h];
        OneMore(Filter(ps, front), h, s, x);
      } else {
        assert Filter(ps, hs) == Filter(ps, front);
      }
      assert Filter(ps, OfOwner(front, s, x)) + [] == Filter(ps, OfOwner(front, s, x));
    }
  }

  lemma FilterMore(ps: seq<Pred>, hs: seq<Hit>, h: Hit)
    ensures Filter(ps, hs + [h]) == Filter(ps, hs) + (if HoldsAll(ps, h.row) then [h] else [])
  {
    assert (hs + [h])[..|hs|] == hs;
  }

  /** A stable sort keeps the order within each key's share. */
  lemma {:induction false} InsertOwner(order: seq<Key>, h: Hit, hs: seq<Hit>, s: Shape, x: int)
    requires Sorted(order, hs)
    ensures OfOwner(Insert(order, h, hs), s, x) ==
            if OwnerOf(s, h) == Some(x) then Insert(order, h, OfOwner(hs, s, x)) else OfOwner(hs, s, x)
  {
    if hs == [] {
      OneMore([], h, s, x);
      assert [] + [h] == [h];
    } else if Precedes(order, hs[|hs| - 1].row, h.row) {
      InsertLast(order, h, hs, s, x);
    } else {
      var front, last := hs[..|hs| - 1], hs[|hs| - 1];
      InsertOwner(order, h, front, s, x);
      assert front + [last] == hs;
      OneMore(front, last, s, x);
      OneMore(Insert(order, h, front), last, s, x);
      InsertBefore(order, h, OfOwner(front, s, x), last);
      assert OfOwner(front, s, x) + [] == OfOwner(front, s, x);
      assert Insert(order, h, OfOwner(front, s, x)) + [] == Insert(order, h, OfOwner(front, s, x));
    }
  }

  lemma InsertBefore(order: seq<Key>, h: Hit, hs: seq<Hit>, last: Hit)
    requires !Precedes(order, last.row, h.row)
    ensures Insert(order, h, hs + [last]) == Insert(order, h, hs) + [last]
  {
    assert (hs + [last])[..|hs|] == hs;
  }

  lemma InsertLast(order: seq<Key>, h: Hit, hs: seq<Hit>, s: Shape, x: int)
    requires Sorted(order, hs) && hs != [] && Precedes(order, hs[|hs| - 1].row, h.row)
    ensures OfOwner(Insert(order, h, hs), s, x) ==
            if OwnerOf(s, h) == Some(x) then Insert(order, h, OfOwner(hs, s, x)) else OfOwner(hs, s, x)
  {
    OneMore(hs, h, s, x);
    if OfOwner(hs, s, x) != [] { LastPrecedes(order, h, hs, s, x); }
  }

  lemma LastPrecedes(order: seq<Key>, h: Hit, hs: seq<Hit>, s: Shape, x: int)
    requires Sorted(order, hs) && hs != [] && Precedes(order, hs[|hs| - 1].row, h.row) && OfOwner(hs, s, x) != []
    ensures Precedes(order, OfOwner(hs, s, x)[|OfOwner(hs, s, x)| - 1].row, h.row)
  {
    var g := OfOwner(hs, s, x)[|OfOwner(hs, s, x)| - 1];
    OfOwnerMembers(hs, s, x, g);
    var i :| 0 <= i < |hs| && hs[i] == g;
    if i < |hs| - 1 { PrecedesTransitive(order, g.row, hs[|hs| - 1].row, h.row); }
  }

  lemma {:induction false} ArrangeOwner(order: seq<Key>, hs: seq<Hit>, s: Shape, x: int)
    ensures Arrange(order, OfOwner(hs, s, x)) == OfOwner(Arrange(order, hs), s, x)
  {
    if hs != [] {
      var front, h := hs[..|hs| - 1], hs[|hs| - 1];
      ArrangeOwner(order, front, s, x);
      ArrangeSorted(order, front);
      InsertOwner(order, h, Arrange(order, front), s, x);
      var share := OfOwner(front, s, x);
      if OwnerOf(s, h) == Some(x) {
        assert OfOwner(hs, s, x) == share + [h] && (share + [h])[..|share|] == share;
      } else {
        assert OfOwner(hs, s, x) == share;
      }
    }
  }

  lemma {:induction false} JoinOwner(links: seq<Row>, rows: seq<Row>, ids: seq<int>, x: int)
    requires x in ids
    ensures JoinHits(links, rows, [x]) == OfOwner(JoinHits(links, rows, ids), M2M, x)
  {
    if links != [] {
      var l := links[|links| - 1];
      var a, g := RefAt(l.cells, AccountID), RefAt(l.cells, GroupID);
      var front := JoinHits(links[..|links| - 1], rows, ids);
      JoinOwner(links[..|links| - 1], rows, ids, x);
      if a.Some? && g.Some? && a.value in ids {
        OfOwnerConcat(front, Matching(rows, g.value, a.value), M2M, x);
        MatchingOwner(rows, g.value, a.value, x);
        assert OfOwner(front, M2M, x) + [] == OfOwner(front, M2M, x);
      } else {
        assert JoinHits(links, rows, ids) == front;
      }
    }
  }

  lemma MatchingOwner(rows: seq<Row>, g: int, a: int, x: int)
    ensures OfOwner(Matching(rows, g, a), M2M, x) == if a == x then Matching(rows, g, a) else []
  {
    var hs := Matching(rows, g, a);
    forall i | 0 <= i < |hs| ensures hs[i].owner == a {
      MatchingMembers(rows, g, a, hs[i]);
    }
    OfOwnerLength(hs, M2M, x);
  }

  /** Every hit of a batch belongs to a key of the batch. */
  lemma BatchOwned(db: Database, sub: Plan, s: Shape, keys: seq<int>)
    requires WellTyped(sub) && sub.joins == []
    ensures Owned(Unlimited(db, RequestOf(Sent(sub, s, keys))), s, keys)
  {
    var q := RequestOf(Sent(sub, s, keys));
    forall h | h in Unlimited(db, q) ensures OwnerOf(s, h).Some? && OwnerOf(s, h).value in keys {
      FilterMembers(q.preds, Arrange(q.order, Base(db, q)), h);
      ArrangeMembers(q.order, Base(db, q), h);
      match s
      case M2M => JoinMembers(Rows(db, AccountGroups), Rows(db, q.table), keys, h);
      case M2O(_) => assert q.preds[|sub.preds|] == IDIn(keys);
      case O2M(fk) => assert q.preds[|sub.preds|] == RefIn(fk, keys);
    }
  }

  /** The query for one key alone finds that key's share of the unlimited batch, in the same order. */
  lemma AloneRows(db: Database, sub: Plan, s: Shape, keys: seq<int>, x: int)
    requires WellTyped(sub) && sub.joins == [] && x in keys
    ensures Unlimited(db, RequestOf(Sent(sub, s, [x]))) == OfOwner(Unlimited(db, RequestOf(Sent(sub, s, keys))), s, x)
  {
    var batch, alone := RequestOf(Sent(sub, s, keys)), RequestOf(Sent(sub, s, [x]));
    if s.M2M? {
      JoinOwner(Rows(db, AccountGroups), Rows(db, sub.table), keys, x);
      ArrangeOwner(batch.order, Base(db, batch), s, x);
      FilterOwner(batch.preds, Arrange(batch.order, Base(db, batch)), s, x);
    } else {
      forall h: Hit ensures HoldsAll(alone.preds, h.row) <==> HoldsAll(batch.preds, h.row) && OwnerOf(s, h) == Some(x) {
        KeyOnly(sub, s, keys, x, h);
      }
      FilterKey(batch.preds, alone.preds, s, x, Arrange(batch.order, Base(db, batch)));
    }
  }

  lemma KeyOnly(sub: Plan, s: Shape, keys: seq<int>, x: int, h: Hit)
    requires WellTyped(sub) && !s.M2M? && x in keys
    ensures HoldsAll(RequestOf(Sent(sub, s, [x])).preds, h.row) <==>
            HoldsAll(RequestOf(Sent(sub, s, keys)).preds, h.row) && OwnerOf(s, h) == Some(x)
  {
    match s
    case M2O(_) => KeyRow(sub.preds, IDIn(keys), IDIn([x]), TraverserPreds(sub.inters), h.row);
    case O2M(fk) => KeyRow(sub.preds, RefIn(fk, keys), RefIn(fk, [x]), TraverserPreds(sub.inters), h.row);
  }

  /** A nested query with a limit, on an edge of whatever kind: each key of the batch gets the rows a limited query
      for it alone would return exactly when the whole batch fits the limit or has rows of one key only. */
  lemma LimitExact(db: Database, sub: Plan, s: Shape, keys: seq<int>, limit: nat)
    requires WellTyped(sub) && sub.joins == [] && sub.limit == Some(limit) && limit > 0 && sub.offset.GetOr(0) == 0
    ensures var batch := RequestOf(Sent(sub, s, keys));
              (forall x | x in keys :: OfOwner(Hits(db, batch), s, x) == Hits(db, RequestOf(Sent(sub, s, [x])))) <==>
              |Unlimited(db, batch)| <= limit || OneOwner(Unlimited(db, batch), s)
  {
    BatchOwned(db, sub, s, keys);
    LimitExactRows(Unlimited(db, RequestOf(Sent(sub, s, keys))), s, keys, limit);
    forall x | x in keys
      ensures Hits(db, RequestOf(Sent(sub, s, [x]))) ==
              Page(0, limit, OfOwner(Unlimited(db, RequestOf(Sent(sub, s, keys))), s, x))
    {
      AloneRows(db, sub, s, keys, x);
    }
  }

  // ---------------------------------------------------------------- on the edges of the loaded nodes

  /** The neighbours on an edge. */
  function EntsOf(e: Edge): (es: seq<Entity>) {
    match e
    case One(node) => if node.Some? then [node.value.ent] else []
    case Many(nodes) => seq(|nodes|, i requires 0 <= i < |nodes| => nodes[i].ent)
  }

  /** The same neighbours, of a many-to-many edge in any order. */
  ghost predicate SameEnts(s: Shape, a: seq<Entity>, b: seq<Entity>) {
    if s.M2M? then multiset(a) == multiset(b) else a == b
  }

  /** The key a node looks for its neighbours with. */
  function KeyFor(s: Shape, e: Entity): Option<int> {
    if s.M2O? then KeyOf(e, s.fk) else Some(e.id)
  }

  ghost function Decoded(q: Plan, hs: seq<Hit>): (es: seq<Entity>)
    requires WellTyped(q)
    ensures |es| == |hs|
  {
    DecodeAll(q.table, ColumnsOf(q), RowsOf(hs))
  }

  lemma DecodedMore(q: Plan, hs: seq<Hit>, h: Hit)
    requires WellTyped(q)
    ensures Decoded(q, hs + [h]) == Decoded(q, hs) + [Decode(q.table, ColumnsOf(q), h.row)]
  {
  }

  /** What is decoded does not depend on the keys. */
  lemma SameDecoded(sub: Plan, s: Shape, keys: seq<int>, others: seq<int>, hs: seq<Hit>)
    requires WellTyped(sub)
    ensures Decoded(Sent(sub, s, keys), hs) == Decoded(Sent(sub, s, others), hs)
  {
    assert LoadedFlags(Sent(sub, s, keys)) == LoadedFlags(Sent(sub, s, others));
  }

  // ---------------------------------------------------------------- foreign-key edges

  ghost predicate NodesOf(q: Plan, vs: seq<Val>, hs: seq<Hit>)
    requires WellTyped(q)
  {
    |vs| == |hs| && forall j | 0 <= j < |vs| :: vs[j].ent == Decode(q.table, ColumnsOf(q), hs[j].row)
  }

  lemma {:induction false} OwnedEnts(q: Plan, vs: seq<Val>, hs: seq<Hit>, links: seq<Hit>, fk: ForeignKey, e: Entity)
    requires WellTyped(q) && NodesOf(q, vs, hs) && Fetches(ColumnsOf(q), Ref(fk))
    requires forall j | 0 <= j < |hs| :: RefAt(hs[j].row.cells, fk).Some?
    ensures EntsOf(Resolve(O2M(fk), vs, links, e)) == Decoded(q, OfOwner(hs, O2M(fk), e.id))
  {
    if vs != [] {
      var front, h := hs[..|hs| - 1], hs[|hs| - 1];
      OwnedEnts(q, vs[..|vs| - 1], front, links, fk, e);
      DecodeKeeps(q.table, ColumnsOf(q), h.row, fk);
      DecodedMore(q, OfOwner(front, O2M(fk), e.id), h);
    }
  }

  lemma {:induction false} PointedEnts(q: Plan, vs: seq<Val>, hs: seq<Hit>, links: seq<Hit>, fk: ForeignKey, e: Entity)
    requires WellTyped(q) && NodesOf(q, vs, hs) && HasID(q.table) && Fetches(ColumnsOf(q), ID)
    requires DistinctRows(hs) && KeyOf(e, fk).Some?
    ensures EntsOf(Resolve(M2O(fk), vs, links, e)) == Decoded(q, OfOwner(hs, M2O(fk), KeyOf(e, fk).value))
  {
    if vs != [] {
      var front, h, x := hs[..|hs| - 1], hs[|hs| - 1], KeyOf(e, fk).value;
      PointedEnts(q, vs[..|vs| - 1], front, links, fk, e);
      DecodeKeeps(q.table, ColumnsOf(q), h.row, fk);
      if h.row.id == x {
        OtherIDs(front, fk, x);
        DecodedMore(q, [], h);
        assert [] + [h] == [h];
      } else {
        assert OfOwner(hs, M2O(fk), x) == OfOwner(front, M2O(fk), x);
      }
    }
  }

  lemma OtherIDs(hs: seq<Hit>, fk: ForeignKey, x: int)
    requires forall i | 0 <= i < |hs| :: hs[i].row.id != x
    ensures OfOwner(hs, M2O(fk), x) == []
  {
    OfOwnerLength(hs, M2O(fk), x);
  }

  /** The hits of the query for a batch, or for one key, and the nodes made of them. */
  lemma BatchNodes(db: Database, p: Plan, ents: seq<Entity>, k: nat)
    requires WellTyped(p) && k < |p.subs| && p.subs[k].Some? && p.subs[k].value.joins == []
    requires !Edges(p.table)[k].shape.M2M?
    ensures var sub, s := p.subs[k].value, Edges(p.table)[k].shape;
              var q := Sent(sub, s, BatchKeys(s, ents));
              && NodesOf(q, Eval(db, Batch(p, ents, k)), Hits(db, RequestOf(q)))
              && NodesOf(q, Naive(db, Batch(p, ents, k)), Hits(db, RequestOf(q)))
  {
    PreparedHeight(Batch(p, ents, k));
    NaiveAt(db, Batch(p, ents, k));
  }

  lemma BatchDistinct(db: Database, sub: Plan, s: Shape, keys: seq<int>)
    requires WellTyped(sub) && ValidDatabase(db) && HasID(sub.table) && sub.joins == [] && !s.M2M?
    ensures DistinctRows(Hits(db, RequestOf(Sent(sub, s, keys))))
  {
    var q := RequestOf(Sent(sub, s, keys));
    NodeRowsDistinct(db, q);
    forall i, j | 0 <= i < j < |Hits(db, q)| ensures Hits(db, q)[i].row.id != Hits(db, q)[j].row.id {
      assert NodeRows(db, q)[i].id != NodeRows(db, q)[j].id;
    }
  }

  lemma OwnerKnown(db: Database, sub: Plan, s: Shape, keys: seq<int>)
    requires WellTyped(sub) && sub.joins == []
    ensures Owned(Hits(db, RequestOf(Sent(sub, s, keys))), s, keys)
  {
    BatchOwned(db, sub, s, keys);
    var q := RequestOf(Sent(sub, s, keys));
    forall h | h in Hits(db, q) ensures h in Unlimited(db, q) {}
  }

  /** A loaded foreign-key edge holds the hits that belong to the node's key. */
  lemma LoadedEnts(db: Database, p: Plan, ents: seq<Entity>, i: nat, k: nat, x: int)
    requires WellTyped(p) && ValidDatabase(db) && i < |ents| && k < |p.subs| && p.subs[k].Some?
    requires p.subs[k].value.joins == []
    requires !Edges(p.table)[k].shape.M2M? && KeyFor(Edges(p.table)[k].shape, ents[i]) == Some(x)
    ensures var sub, s := p.subs[k].value, Edges(p.table)[k].shape;
              var q := Sent(sub, s, BatchKeys(s, ents));
              EntsOf(LoadEdge(db, p, ents, i, k)) == Decoded(q, OfOwner(Hits(db, RequestOf(q)), s, x))
  {
    var sub, s := p.subs[k].value, Edges(p.table)[k].shape;
    var q := Sent(sub, s, BatchKeys(s, ents));
    var hits, links := Hits(db, RequestOf(q)), Hits(db, RequestOf(Prepared(Batch(p, ents, k))));
    BatchNodes(db, p, ents, k);
    KeysFetched(q.table, q.fields, LoadedFlags(q));
    match s
    case O2M(fk) =>
      OwnerKnown(db, sub, s, BatchKeys(s, ents));
      forall j | 0 <= j < |hits| ensures RefAt(hits[j].row.cells, fk).Some? { assert hits[j] in hits; }
      OwnedEnts(q, Eval(db, Batch(p, ents, k)), hits, links, fk, ents[i]);
    case M2O(fk) =>
      BatchDistinct(db, sub, s, BatchKeys(s, ents));
      PointedEnts(q, Eval(db, Batch(p, ents, k)), hits, links, fk, ents[i]);
  }

  /** A foreign-key edge looked up for one node holds all hits of its own query. */
  lemma LookedUpEnts(db: Database, p: Plan, e: Entity, k: nat, x: int)
    requires WellTyped(p) && ValidDatabase(db) && k < |p.subs| && p.subs[k].Some? && p.subs[k].value.joins == []
    requires !Edges(p.table)[k].shape.M2M? && KeyFor(Edges(p.table)[k].shape, e) == Some(x)
    ensures var q := Sent(p.subs[k].value, Edges(p.table)[k].shape, [x]);
              EntsOf(LookUpEdge(db, p, e, k)) == Decoded(q, Hits(db, RequestOf(q)))
  {
    var sub, s := p.subs[k].value, Edges(p.table)[k].shape;
    BatchNodes(db, p, [e], k);
    match s
    case O2M(fk) =>
      assert IDs([e]) == [x];
    case M2O(fk) =>
      OneKey(e, fk);
      NarrowHeight(sub, s, [x]);
      OneRow(db, sub, fk, x);
  }

  /** The nodes made of a key's share of the batch, and of its own query, tell whether the two are the same hits. */
  ghost predicate Tells(db: Database, sub: Plan, s: Shape, keys: seq<int>, x: int)
    requires WellTyped(sub)
  {
    var q, share, own := Sent(sub, s, keys), OfOwner(Hits(db, RequestOf(Sent(sub, s, keys))), s, x),
        Hits(db, RequestOf(Sent(sub, s, [x])));
    SameEnts(s, Decoded(q, share), Decoded(q, own)) ==> share == own
  }

  /** A foreign-key edge is right exactly if the node's share of the batch is. */
  lemma ForeignKeyShare(db: Database, p: Plan, ents: seq<Entity>, i: nat, k: nat, x: int)
    requires WellTyped(p) && ValidDatabase(db) && i < |ents| && k < |p.subs| && p.subs[k].Some?
    requires !Edges(p.table)[k].shape.M2M? && KeyFor(Edges(p.table)[k].shape, ents[i]) == Some(x)
    requires var sub, s := p.subs[k].value, Edges(p.table)[k].shape;
               sub.joins == [] && Tells(db, sub, s, BatchKeys(s, ents), x)
    requires x in BatchKeys(Edges(p.table)[k].shape, ents)
    ensures var sub, s := p.subs[k].value, Edges(p.table)[k].shape;
              SameEnts(s, EntsOf(LoadEdge(db, p, ents, i, k)), EntsOf(LookUpEdge(db, p, ents[i], k))) <==>
              OfOwner(Hits(db, RequestOf(Sent(sub, s, BatchKeys(s, ents)))), s, x) ==
                  Hits(db, RequestOf(Sent(sub, s, [x])))
  {
    var sub, s := p.subs[k].value, Edges(p.table)[k].shape;
    var keys := BatchKeys(s, ents);
    LoadedEnts(db, p, ents, i, k, x);
    LookedUpEnts(db, p, ents[i], k, x);
    SameDecoded(sub, s, keys, [x], Hits(db, RequestOf(Sent(sub, s, [x]))));
  }

  /** Without an offset they do: the share and the key's own query agree as soon as they are equally long. */
  lemma EquallyLong(db: Database, sub: Plan, s: Shape, keys: seq<int>, x: int)
    requires WellTyped(sub) && sub.joins == [] && sub.offset.GetOr(0) == 0 && x in keys
    ensures Tells(db, sub, s, keys, x)
  {
    AloneRows(db, sub, s, keys, x);
    SharesAreFirst(Unlimited(db, RequestOf(Sent(sub, s, keys))), s, sub.limit.GetOr(0), x);
    var q, share, own := Sent(sub, s, keys), OfOwner(Hits(db, RequestOf(Sent(sub, s, keys))), s, x),
        Hits(db, RequestOf(Sent(sub, s, [x])));
    if SameEnts(s, Decoded(q, share), Decoded(q, own)) {
      assert |multiset(Decoded(q, share))| == |multiset(Decoded(q, own))|;
    }
  }

  // ---------------------------------------------------------------- many-to-many edges

  /** The primary key of the link table: an account and a group are linked at most once. */
  ghost predicate LinkedOnce(links: seq<Row>) {
    forall i, j | 0 <= i < j < |links| ::
      RefAt(links[i].cells, AccountID) != RefAt(links[j].cells, AccountID)
          || RefAt(links[i].cells, GroupID) != RefAt(links[j].cells, GroupID)
  }

  lemma MatchingOnce(rows: seq<Row>, id: int, owner: int)
    requires UniqueIDs(rows)
    ensures NoRepeats(Matching(rows, id, owner))
  {
    if r :| r in rows && r.id == id {
      MatchingOne(rows, r, owner);
    } else {
      MatchingNone(rows, id, owner);
    }
  }

  lemma OnceConcat(a: seq<Hit>, b: seq<Hit>)
    requires NoRepeats(a) && NoRepeats(b) && forall h | h in b :: h !in a
    ensures NoRepeats(a + b)
  {
    forall i, j | 0 <= i < j < |a + b| ensures (a + b)[i] != (a + b)[j] {
      if i < |a| <= j { assert b[j - |a|] in b; }
    }
  }

  lemma {:induction false} JoinOnce(links: seq<Row>, rows: seq<Row>, ids: seq<int>)
    requires LinkedOnce(links) && UniqueIDs(rows)
    ensures NoRepeats(JoinHits(links, rows, ids))
  {
    if links != [] {
      var front, l := links[..|links| - 1], links[|links| - 1];
      var a, g := RefAt(l.cells, AccountID), RefAt(l.cells, GroupID);
      JoinOnce(front, rows, ids);
      assert JoinHits(front, rows, ids) + [] == JoinHits(front, rows, ids);
      if a.Some? && g.Some? && a.value in ids {
        MatchingOnce(rows, g.value, a.value);
        forall h | h in Matching(rows, g.value, a.value) ensures h !in JoinHits(front, rows, ids) {
          MatchingMembers(rows, g.value, a.value, h);
          JoinMembers(front, rows, ids, h);
          NotLinkedBefore(links, a.value, g.value);
        }
        OnceConcat(JoinHits(front, rows, ids), Matching(rows, g.value, a.value));
      }
    }
  }

  lemma NotLinkedBefore(links: seq<Row>, a: int, g: int)
    requires LinkedOnce(links) && links != [] && Links(links[|links| - 1], a, g)
    ensures !Linking(links[..|links| - 1], a, g)
  {
    forall l | l in links[..|links| - 1] ensures !Links(l, a, g) {
      var i :| 0 <= i < |links| - 1 && links[i] == l;
    }
  }

  lemma {:induction false} InsertOnce(order: seq<Key>, x: Hit, hs: seq<Hit>)
    requires NoRepeats(hs) && x !in hs
    ensures NoRepeats(Insert(order, x, hs))
  {
    if hs != [] && !Precedes(order, hs[|hs| - 1].row, x.row) {
      var front, last := hs[..|hs| - 1], hs[|hs| - 1];
      InsertOnce(order, x, front);
      InsertMembers(order, x, front, last);
    }
  }

  lemma {:induction false} ArrangeOnce(order: seq<Key>, hs: seq<Hit>)
    requires NoRepeats(hs)
    ensures NoRepeats(Arrange(order, hs))
  {
    if hs != [] {
      var front, last := hs[..|hs| - 1], hs[|hs| - 1];
      ArrangeOnce(order, front);
      ArrangeMembers(order, front, last);
      InsertOnce(order, last, Arrange(order, front));
    }
  }

  lemma {:induction false} FilterOnce(ps: seq<Pred>, hs: seq<Hit>)
    requires NoRepeats(hs)
    ensures NoRepeats(Filter(ps, hs))
  {
    if hs != [] {
      FilterOnce(ps, hs[..|hs| - 1]);
      FilterMembers(ps, hs[..|hs| - 1], hs[|hs| - 1]);
    }
  }

  lemma {:induction false} OfOwnerOnce(hs: seq<Hit>, s: Shape, x: int)
    requires NoRepeats(hs)
    ensures NoRepeats(OfOwner(hs, s, x))
  {
    if hs != [] {
      OfOwnerOnce(hs[..|hs| - 1], s, x);
      OfOwnerMembers(hs[..|hs| - 1], s, x, hs[|hs| - 1]);
    }
  }

  lemma JoinHitsOnce(db: Database, q: Request)
    requires ValidDatabase(db) && LinkedOnce(Rows(db, AccountGroups)) && HasID(q.table) && |q.joins| == 1
    ensures NoRepeats(Hits(db, q))
  {
    JoinOnce(Rows(db, AccountGroups), Rows(db, q.table), q.joins[0]);
    ArrangeOnce(q.order, Base(db, q));
    FilterOnce(q.preds, Arrange(q.order, Base(db, q)));
  }

  /** Every hit of a join is a row of the table. */
  lemma JoinedFrom(db: Database, q: Request, h: Hit)
    requires q.joins != [] && h in Hits(db, q)
    ensures h.row in Rows(db, q.table)
  {
    HitsMembers(db, q, h);
    JoinAllMembers(Rows(db, AccountGroups), Rows(db, q.table), q.joins, h);
  }

  /** An account's hits have distinct rows. */
  lemma ShareUnique(db: Database, q: Request, x: int)
    requires ValidDatabase(db) && LinkedOnce(Rows(db, AccountGroups)) && HasID(q.table) && |q.joins| == 1
    ensures UniqueIDs(RowsOf(OfOwner(Hits(db, q), M2M, x)))
  {
    var share := OfOwner(Hits(db, q), M2M, x);
    JoinHitsOnce(db, q);
    OfOwnerOnce(Hits(db, q), M2M, x);
    forall i, j | 0 <= i < j < |share| ensures share[i].row.id != share[j].row.id {
      OfOwnerMembers(Hits(db, q), M2M, x, share[i]);
      OfOwnerMembers(Hits(db, q), M2M, x, share[j]);
      JoinedFrom(db, q, share[i]);
      JoinedFrom(db, q, share[j]);
      if share[i].row.id == share[j].row.id { UniqueRow(Rows(db, q.table), share[i].row, share[j].row); }
    }
  }

  /** The rows an account is joined to are those of its hits. */
  lemma ShareRow(db: Database, q: Request, x: int, r: Row)
    requires ValidDatabase(db) && HasID(q.table) && q.joins != []
    ensures r in FirstSeen(Hits(db, q)) && Linked(Hits(db, q), x, r.id) <==> r in RowsOf(OfOwner(Hits(db, q), M2M, x))
  {
    var hits := Hits(db, q);
    var share := OfOwner(hits, M2M, x);
    if r in FirstSeen(hits) && Linked(hits, x, r.id) {
      var h :| h in hits && h.owner == x && h.row.id == r.id;
      FirstSeenRows(hits, r);
      var g :| g in hits && g.row == r;
      JoinedFrom(db, q, h);
      JoinedFrom(db, q, g);
      UniqueRow(Rows(db, q.table), r, h.row);
      OfOwnerMembers(hits, M2M, x, h);
      var j :| 0 <= j < |share| && share[j] == h;
      assert RowsOf(share)[j] == r;
    }
    if r in RowsOf(share) {
      var j :| 0 <= j < |share| && share[j].row == r;
      var h := share[j];
      OfOwnerMembers(hits, M2M, x, h);
      assert Seen(hits, r.id);
      FirstSeenIDs(hits, r.id);
      var s :| s in FirstSeen(hits) && s.id == r.id;
      FirstSeenRows(hits, s);
      var g :| g in hits && g.row == s;
      JoinedFrom(db, q, h);
      JoinedFrom(db, q, g);
      UniqueRow(Rows(db, q.table), r, s);
    }
  }

  lemma JoinShare(db: Database, sub: Plan, ids: seq<int>, x: int)
    requires WellTyped(sub) && sub.table == Groups && sub.joins == [] && ValidDatabase(db)
    requires LinkedOnce(Rows(db, AccountGroups))
    ensures var share := RowsOf(OfOwner(Hits(db, RequestOf(Sent(sub, M2M, ids))), M2M, x));
              SameElements(BatchShare(db, sub, ids, x), share) && UniqueIDs(BatchShare(db, sub, ids, x))
                  && UniqueIDs(share)
  {
    var q := RequestOf(Sent(sub, M2M, ids));
    FirstSeenDistinct(Hits(db, q));
    LinkedRowsMembers(FirstSeen(Hits(db, q)), Hits(db, q), x);
    ShareUnique(db, q, x);
    forall r ensures r in BatchShare(db, sub, ids, x) <==> r in RowsOf(OfOwner(Hits(db, q), M2M, x)) {
      ShareRow(db, q, x, r);
    }
  }

  lemma OwnJoinShare(db: Database, sub: Plan, x: int)
    requires WellTyped(sub) && sub.table == Groups && sub.joins == [] && ValidDatabase(db)
    requires LinkedOnce(Rows(db, AccountGroups))
    ensures var own := RowsOf(Hits(db, RequestOf(Sent(sub, M2M, [x]))));
              SameElements(OwnShare(db, sub, x), own) && UniqueIDs(OwnShare(db, sub, x)) && UniqueIDs(own)
  {
    JoinShare(db, sub, [x], x);
    OwnHits(db, sub, x);
    OwnIsBatch(db, sub, x);
  }

  lemma OwnHits(db: Database, sub: Plan, x: int)
    requires WellTyped(sub) && sub.joins == []
    ensures OfOwner(Hits(db, RequestOf(Sent(sub, M2M, [x]))), M2M, x) == Hits(db, RequestOf(Sent(sub, M2M, [x])))
  {
    var hits := Hits(db, RequestOf(Sent(sub, M2M, [x])));
    OwnerKnown(db, sub, M2M, [x]);
    forall i | 0 <= i < |hits| ensures OwnerOf(M2M, hits[i]) == Some(x) { assert hits[i] in hits; }
    OfOwnerAll(hits, M2M, x);
  }

  lemma OwnIsBatch(db: Database, sub: Plan, x: int)
    requires WellTyped(sub) && sub.joins == []
    ensures SameElements(OwnShare(db, sub, x), BatchShare(db, sub, [x], x)) && UniqueIDs(OwnShare(db, sub, x))
  {
    var q := RequestOf(Sent(sub, M2M, [x]));
    FirstSeenDistinct(Hits(db, q));
    LinkedRowsMembers(FirstSeen(Hits(db, q)), Hits(db, q), x);
    forall r ensures r in OwnShare(db, sub, x) <==> r in BatchShare(db, sub, [x], x) {
      if r in OwnShare(db, sub, x) { OwnRows(db, q, x, r); }
    }
  }

  lemma SameRowsSameEnts(q: Plan, a: seq<Row>, b: seq<Row>)
    requires WellTyped(q) && HasID(q.table) && SameElements(a, b) && UniqueIDs(a) && UniqueIDs(b)
    ensures multiset(DecodeAll(q.table, ColumnsOf(q), a)) == multiset(DecodeAll(q.table, ColumnsOf(q), b))
  {
    var d, e := DecodeAll(q.table, ColumnsOf(q), a), DecodeAll(q.table, ColumnsOf(q), b);
    KeysFetched(q.table, q.fields, LoadedFlags(q));
    forall x ensures x in d <==> x in e {
      DecodedFrom(q, a, b, x);
      DecodedFrom(q, b, a, x);
    }
    SameSet(d, e);
  }

  lemma DecodedFrom(q: Plan, a: seq<Row>, b: seq<Row>, x: Entity)
    requires WellTyped(q) && SameElements(a, b)
    ensures x in DecodeAll(q.table, ColumnsOf(q), a) ==> x in DecodeAll(q.table, ColumnsOf(q), b)
  {
    var d, e := DecodeAll(q.table, ColumnsOf(q), a), DecodeAll(q.table, ColumnsOf(q), b);
    if x in d {
      var i :| 0 <= i < |d| && d[i] == x;
      assert a[i] in a && a[i] in b;
      var j :| 0 <= j < |b| && b[j] == a[i];
      assert e[j] == x;
    }
  }

  lemma LeafEnts(q: Plan, rows: seq<Row>)
    requires WellTyped(q)
    ensures EntsOf(Many(LeafVals(q, rows))) == DecodeAll(q.table, ColumnsOf(q), rows)
  {
  }

  /** A many-to-many edge is right, up to order, exactly if the account's share of the batch is. */
  lemma JoinedShare(db: Database, p: Plan, ents: seq<Entity>, i: nat, k: nat)
    requires WellTyped(p) && ValidDatabase(db) && LinkedOnce(Rows(db, AccountGroups)) && i < |ents|
    requires k < |p.subs| && p.subs[k].Some? && Edges(p.table)[k].shape.M2M?
    requires var sub := p.subs[k].value; sub.joins == [] && Tells(db, sub, M2M, IDs(ents), ents[i].id)
    ensures var sub, x := p.subs[k].value, ents[i].id;
              SameEnts(M2M, EntsOf(LoadEdge(db, p, ents, i, k)), EntsOf(LookUpEdge(db, p, ents[i], k))) <==>
              OfOwner(Hits(db, RequestOf(Sent(sub, M2M, IDs(ents)))), M2M, x) ==
                  Hits(db, RequestOf(Sent(sub, M2M, [x])))
  {
    var sub, x := p.subs[k].value, ents[i].id;
    assert IDs(ents)[i] == x;
    EdgeRows(db, p, ents, i, k);
    SharesAsEnts(db, sub, IDs(ents), x);
    JoinDecoded(sub, IDs(ents), OfOwner(Hits(db, RequestOf(Sent(sub, M2M, IDs(ents)))), M2M, x));
    JoinDecoded(sub, IDs(ents), Hits(db, RequestOf(Sent(sub, M2M, [x]))));
  }

  lemma JoinDecoded(sub: Plan, keys: seq<int>, hs: seq<Hit>)
    requires WellTyped(sub)
    ensures Decoded(Sent(sub, M2M, keys), hs) == Decoded(sub, hs)
  {
    assert LoadedFlags(Sent(sub, M2M, keys)) == LoadedFlags(sub);
  }

  lemma SharesAsEnts(db: Database, sub: Plan, ids: seq<int>, x: int)
    requires WellTyped(sub) && sub.table == Groups && sub.joins == [] && ValidDatabase(db)
    requires LinkedOnce(Rows(db, AccountGroups))
    ensures multiset(EntsOf(Many(LeafVals(sub, BatchShare(db, sub, ids, x))))) ==
            multiset(Decoded(sub, OfOwner(Hits(db, RequestOf(Sent(sub, M2M, ids))), M2M, x)))
    ensures multiset(EntsOf(Many(LeafVals(sub, OwnShare(db, sub, x))))) ==
            multiset(Decoded(sub, Hits(db, RequestOf(Sent(sub, M2M, [x])))))
  {
    JoinShare(db, sub, ids, x);
    OwnJoinShare(db, sub, x);
    LeafEnts(sub, BatchShare(db, sub, ids, x));
    LeafEnts(sub, OwnShare(db, sub, x));
    SameRowsSameEnts(sub, BatchShare(db, sub, ids, x),
        RowsOf(OfOwner(Hits(db, RequestOf(Sent(sub, M2M, ids))), M2M, x)));
    SameRowsSameEnts(sub, OwnShare(db, sub, x), RowsOf(Hits(db, RequestOf(Sent(sub, M2M, [x])))));
  }

  // ---------------------------------------------------------------- every edge of a run

  /** Edge k of node i holds the neighbours a limited query for that node alone would. */
  ghost predicate RightEdge(db: Database, p: Plan, ents: seq<Entity>, i: nat, k: nat)
    requires WellTyped(p) && i < |ents| && k < |p.subs|
  {
    SameEnts(Edges(p.table)[k].shape, EntsOf(LoadEdge(db, p, ents, i, k)), EntsOf(LookUpEdge(db, p, ents[i], k)))
  }

  /** Key x of the batch gets the hits a limited query for it alone would. */
  ghost predicate RightShare(db: Database, sub: Plan, s: Shape, keys: seq<int>, x: int)
    requires WellTyped(sub)
  {
    OfOwner(Hits(db, RequestOf(Sent(sub, s, keys))), s, x) == Hits(db, RequestOf(Sent(sub, s, [x])))
  }

  lemma KeyKnown(s: Shape, ents: seq<Entity>, i: nat)
    requires i < |ents| && KeyFor(s, ents[i]).Some?
    ensures KeyFor(s, ents[i]).value in BatchKeys(s, ents)
  {
    if s.M2O? { KeyInBatch(ents, s.fk, i); } else { assert IDs(ents)[i] == ents[i].id; }
  }

  lemma NoKeyRight(db: Database, p: Plan, ents: seq<Entity>, i: nat, k: nat)
    requires WellTyped(p) && i < |ents| && k < |p.subs| && p.subs[k].Some?
    requires KeyFor(Edges(p.table)[k].shape, ents[i]).None?
    ensures RightEdge(db, p, ents, i, k)
  {
    var q := Batch(p, ents, k);
    NoneWanted(Edges(p.table)[k].shape, Eval(db, q), Hits(db, RequestOf(Prepared(q))), ents[i]);
  }

  lemma EdgeShare(db: Database, p: Plan, ents: seq<Entity>, i: nat, k: nat, x: int)
    requires WellTyped(p) && ValidDatabase(db) && LinkedOnce(Rows(db, AccountGroups)) && i < |ents|
    requires k < |p.subs| && p.subs[k].Some? && p.subs[k].value.joins == []
    requires var s := Edges(p.table)[k].shape;
               KeyFor(s, ents[i]) == Some(x) && Tells(db, p.subs[k].value, s, BatchKeys(s, ents), x)
    ensures var s := Edges(p.table)[k].shape;
              RightEdge(db, p, ents, i, k) <==> RightShare(db, p.subs[k].value, s, BatchKeys(s, ents), x)
  {
    KeyKnown(Edges(p.table)[k].shape, ents, i);
    if Edges(p.table)[k].shape.M2M? {
      JoinedShare(db, p, ents, i, k);
    } else {
      ForeignKeyShare(db, p, ents, i, k, x);
    }
  }

  /** Every key of a batch is some node's. */
  lemma KeyOfSome(s: Shape, ents: seq<Entity>, x: int) returns (i: nat)
    requires x in BatchKeys(s, ents)
    ensures i < |ents| && KeyFor(s, ents[i]) == Some(x)
  {
    if s.M2O? {
      KeysExact(ents, s.fk, x);
      i :| 0 <= i < |ents| && KeyOf(ents[i], s.fk) == Some(x);
    } else {
      i :| 0 <= i < |ents| && IDs(ents)[i] == x;
    }
  }

  /** So the edges of a batch are right exactly if all shares are. */
  lemma AllShares(db: Database, p: Plan, ents: seq<Entity>, k: nat)
    requires WellTyped(p) && ValidDatabase(db) && LinkedOnce(Rows(db, AccountGroups)) && k < |p.subs| && p.subs[k].Some?
    requires p.subs[k].value.joins == []
    requires var s := Edges(p.table)[k].shape;
               forall x | x in BatchKeys(s, ents) :: Tells(db, p.subs[k].value, s, BatchKeys(s, ents), x)
    ensures var sub, s := p.subs[k].value, Edges(p.table)[k].shape;
              (forall i | 0 <= i < |ents| :: RightEdge(db, p, ents, i, k)) <==>
              (forall x | x in BatchKeys(s, ents) :: RightShare(db, sub, s, BatchKeys(s, ents), x))
  {
    var sub, s := p.subs[k].value, Edges(p.table)[k].shape;
    var keys := BatchKeys(s, ents);
    forall i | 0 <= i < |ents|
      ensures RightEdge(db, p, ents, i, k) <==>
              KeyFor(s, ents[i]).None? || RightShare(db, sub, s, keys, KeyFor(s, ents[i]).value)
      ensures KeyFor(s, ents[i]).Some? ==> KeyFor(s, ents[i]).value in keys
    {
      if KeyFor(s, ents[i]).Some? {
        KeyKnown(s, ents, i);
        EdgeShare(db, p, ents, i, k, KeyFor(s, ents[i]).value);
      } else {
        NoKeyRight(db, p, ents, i, k);
      }
    }
    forall x | x in keys ensures exists i :: 0 <= i < |ents| && KeyFor(s, ents[i]) == Some(x) {
      var i := KeyOfSome(s, ents, x);
    }
  }

  /** A limit on a nested query, for an edge of whatever kind: every node of the batch gets the neighbours a limited
      query for it alone would return if and only if the whole batch fits the limit or has rows for one key only. */
  lemma LimitedEdges(db: Database, p: Plan, ents: seq<Entity>, k: nat, limit: nat)
    requires WellTyped(p) && ValidDatabase(db) && LinkedOnce(Rows(db, AccountGroups)) && k < |p.subs| && p.subs[k].Some?
    requires var sub := p.subs[k].value;
               sub.joins == [] && sub.limit == Some(limit) && limit > 0 && sub.offset.GetOr(0) == 0
    ensures var s := Edges(p.table)[k].shape;
            var rows := Unlimited(db, RequestOf(Sent(p.subs[k].value, s, BatchKeys(s, ents))));
              (forall i | 0 <= i < |ents| :: RightEdge(db, p, ents, i, k)) <==> |rows| <= limit || OneOwner(rows, s)
  {
    var sub, s := p.subs[k].value, Edges(p.table)[k].shape;
    var keys := BatchKeys(s, ents);
    LimitExact(db, sub, s, keys, limit);
    forall x | x in keys ensures Tells(db, sub, s, keys, x) {
      EquallyLong(db, sub, s, keys, x);
    }
    AllShares(db, p, ents, k);
  }

  /** The edges of a whole run, and of the per-node lookup. */
  lemma RunEdgesRight(db: Database, p: Plan, k: nat)
    requires WellTyped(p) && k < |p.subs|
    ensures var s, vs, ws, ents := Edges(p.table)[k].shape, Eval(db, p), Naive(db, p), Entities(db, Prepared(p));
              && |vs| == |ws| == |ents|
              && (forall i | 0 <= i < |vs| :: vs[i].ent == ws[i].ent && |vs[i].edges| == |ws[i].edges| == |p.subs|)
              && forall i | 0 <= i < |vs| ::
                   RightEdge(db, Prepared(p), ents, i, k) <==>
                       SameEnts(s, EntsOf(vs[i].edges[k]), EntsOf(ws[i].edges[k]))
  {
    var q := Prepared(p);
    var ents := Entities(db, q);
    NaiveAt(db, p);
    forall i | 0 <= i < |ents|
      ensures RightEdge(db, q, ents, i, k) <==>
              SameEnts(Edges(p.table)[k].shape, EntsOf(Eval(db, p)[i].edges[k]), EntsOf(Naive(db, p)[i].edges[k]))
    {
      assert Eval(db, p)[i].edges[k] == LoadEdge(db, q, ents, i, k);
      assert Naive(db, p)[i].edges[k] == LookUpEdge(db, q, ents[i], k);
    }
  }

  /** The same for the trees of a whole run and of the per-node lookup. */
  lemma LimitedRun(db: Database, p: Plan, k: nat, limit: nat)
    requires WellTyped(p) && ValidDatabase(db) && LinkedOnce(Rows(db, AccountGroups))
    requires k < |p.subs| && p.subs[k].Some?
    requires var sub := p.subs[k].value;
               sub.joins == [] && sub.limit == Some(limit) && limit > 0 && sub.offset.GetOr(0) == 0
    ensures var s, vs, ws := Edges(p.table)[k].shape, Eval(db, p), Naive(db, p);
            var rows := Unlimited(db, RequestOf(Sent(p.subs[k].value, s, BatchKeys(s, Entities(db, Prepared(p))))));
              && |vs| == |ws|
              && (forall i | 0 <= i < |vs| :: vs[i].ent == ws[i].ent && |vs[i].edges| == |ws[i].edges| == |p.subs|)
              && ((forall i | 0 <= i < |vs| :: SameEnts(s, EntsOf(vs[i].edges[k]), EntsOf(ws[i].edges[k]))) <==>
                  |rows| <= limit || OneOwner(rows, s))
  {
    LimitedEdges(db, Prepared(p), Entities(db, Prepared(p)), k, limit);
    RunEdgesRight(db, p, k);
  }
}
