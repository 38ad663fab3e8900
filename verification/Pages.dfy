/**
 A nested query with a limit and an offset: exactly when paging the whole batch gives every node its own page
 (backend/ent/account_query.go:627-844), and a run where a limit does not.
 */
module Pages {
  import opened Wrappers
  import opened Schema
  import opened Plan
  import opened Eager
  import opened Selection
  import opened Refinement
  import opened Distribution
  import opened Ordering
  import opened Limits

  // ---------------------------------------------------------------- slices

  lemma PageSlice<T>(offset: nat, limit: nat, s: seq<T>) returns (a: nat, b: nat)
    ensures a <= b <= |s| && Page(offset, limit, s) == s[a..b]
    ensures Page(offset, limit, s) != [] ==> a == offset
  {
    if offset <= |s| {
      a := offset;
      b := if limit == 0 || |s| - offset <= limit then |s| else offset + limit;
      assert s[offset..][..b - offset] == s[a..b];
      if b == |s| { assert s[a..b] == s[offset..]; }
    } else {
      a, b := 0, 0;
    }
  }

  /** The share of a slice is a slice of the share. */
  lemma ShareSlice(hs: seq<Hit>, a: nat, b: nat, s: Shape, x: int) returns (i: nat, j: nat)
    requires a <= b <= |hs|
    ensures i <= j <= |OfOwner(hs, s, x)| && OfOwner(hs[a..b], s, x) == OfOwner(hs, s, x)[i..j]
    ensures i == |OfOwner(hs[..a], s, x)|
  {
    SplitAt(hs, s, b, x);
    SplitAt(hs[..b], s, a, x);
    assert hs[..b][..a] == hs[..a] && hs[..b][a..] == hs[a..b];
    i := |OfOwner(hs[..a], s, x)|;
    j := |OfOwner(hs[..b], s, x)|;
  }

  /** Two slices of a list without repeats that have the same elements are the same. */
  lemma SameSlice<T>(l: seq<T>, a: nat, b: nat, c: nat, d: nat)
    requires NoRepeats(l) && a <= b <= |l| && c <= d <= |l|
    requires forall x :: x in l[a..b] <==> x in l[c..d]
    ensures l[a..b] == l[c..d]
  {
    if a < b {
      InSlice(l, a, b, c, d, a);
      InSlice(l, a, b, c, d, b - 1);
      InSlice(l, c, d, a, b, c);
      InSlice(l, c, d, a, b, d - 1);
    } else if c < d {
      InSlice(l, c, d, a, b, c);
    }
  }

  lemma InSlice<T>(l: seq<T>, a: nat, b: nat, c: nat, d: nat, i: nat)
    requires NoRepeats(l) && a <= i < b <= |l| && c <= d <= |l|
    requires forall x :: x in l[a..b] ==> x in l[c..d]
    ensures c <= i < d
  {
    assert l[a..b][i - a] == l[i];
    assert l[i] in l[c..d];
    var j :| 0 <= j < d - c && l[c..d][j] == l[i];
    assert l[c + j] == l[i];
  }

  // ---------------------------------------------------------------- the rows

  /** Key x gets its own page out of the page of the batch. */
  ghost predicate OwnPage(hs: seq<Hit>, s: Shape, offset: nat, limit: nat, x: int) {
    OfOwner(Page(offset, limit, hs), s, x) == Page(offset, limit, OfOwner(hs, s, x))
  }

  ghost predicate OwnPages(hs: seq<Hit>, s: Shape, keys: seq<int>, offset: nat, limit: nat) {
    forall x | x in keys :: OwnPage(hs, s, offset, limit, x)
  }

  /** The page of the batch and everything before it belong to one key, and no other key has more rows than the offset
      skips. */
  ghost predicate OneOnPage(hs: seq<Hit>, s: Shape, keys: seq<int>, offset: nat, limit: nat) {
    && limit > 0 && |hs| > offset + limit && OneOwner(hs[..offset + limit], s)
    && OthersFew(hs, s, keys, offset)
  }

  ghost predicate OthersFew(hs: seq<Hit>, s: Shape, keys: seq<int>, offset: nat)
    requires hs != []
  {
    forall y | y in keys && OwnerOf(s, hs[0]) != Some(y) :: |OfOwner(hs, s, y)| <= offset
  }

  /** When paging the batch does no harm. */
  ghost predicate Harmless(hs: seq<Hit>, s: Shape, keys: seq<int>, offset: nat, limit: nat) {
    || OneOwner(hs, s)
    || |hs| <= offset
    || (offset == 0 && (limit == 0 || |hs| <= limit))
    || OneOnPage(hs, s, keys, offset, limit)
  }

  lemma OneOwnerPage(hs: seq<Hit>, s: Shape, offset: nat, limit: nat, x: int)
    requires OneOwner(hs, s)
    ensures OwnPage(hs, s, offset, limit, x)
  {
    var a, b := PageSlice(offset, limit, hs);
    if hs != [] { AllOrNone(hs, s, x); }
    if a < b {
      SliceOwner(hs, s, a, b);
      AllOrNone(hs[a..b], s, x);
    }
  }

  lemma SliceOwner(hs: seq<Hit>, s: Shape, a: nat, b: nat)
    requires OneOwner(hs, s) && a < b <= |hs|
    ensures OneOwner(hs[a..b], s) && OwnerOf(s, hs[a..b][0]) == OwnerOf(s, hs[0])
  {
    assert hs[a..b][0] == hs[a];
    forall i, j | 0 <= i < b - a && 0 <= j < b - a ensures OwnerOf(s, hs[a..b][i]) == OwnerOf(s, hs[a..b][j]) {
      assert OwnerOf(s, hs[a + i]) == OwnerOf(s, hs[a + j]);
    }
  }

  lemma OneOnPageOwn(hs: seq<Hit>, s: Shape, keys: seq<int>, offset: nat, limit: nat, x: int)
    requires OneOnPage(hs, s, keys, offset, limit) && x in keys
    ensures OwnPage(hs, s, offset, limit, x)
  {
    PageOf(offset, limit, hs);
    FrontShares(hs, s, offset, offset + limit, x);
    SplitAt(hs, s, offset + limit, x);
    if OwnerOf(s, hs[0]) == Some(x) {
      LongerList(hs[..offset + limit], OfOwner(hs[offset + limit..], s, x), offset, limit);
    }
  }

  /** Of rows that all belong to one key, that key gets all, and others none. */
  lemma FrontShares(hs: seq<Hit>, s: Shape, a: nat, b: nat, x: int)
    requires a < b <= |hs| && OneOwner(hs[..b], s)
    ensures OfOwner(hs[..b], s, x) == if OwnerOf(s, hs[0]) == Some(x) then hs[..b] else []
    ensures OfOwner(hs[a..b], s, x) == if OwnerOf(s, hs[0]) == Some(x) then hs[..b][a..] else []
  {
    assert hs[..b][a..b] == hs[a..b] && hs[..b][0] == hs[0];
    SliceOwner(hs[..b], s, a, b);
    AllOrNone(hs[..b], s, x);
    AllOrNone(hs[a..b], s, x);
  }

  lemma LongerList(front: seq<Hit>, rest: seq<Hit>, offset: nat, limit: nat)
    requires limit > 0 && |front| == offset + limit
    ensures Page(offset, limit, front + rest) == front[offset..]
  {
    PageOf(offset, limit, front + rest);
  }

  lemma PageOf<T>(offset: nat, limit: nat, s: seq<T>)
    requires limit > 0 && |s| >= offset + limit
    ensures Page(offset, limit, s) == s[offset..offset + limit]
  {
    assert s[offset..][..limit] == s[offset..offset + limit];
    if |s| == offset + limit { assert s[offset..] == s[offset..offset + limit]; }
  }

  lemma SomeHit(hs: seq<Hit>, s: Shape, x: int)
    requires OfOwner(hs, s, x) != []
    ensures hs != []
  {
  }

  /** A key on the page whose page is its own has no row before the page, or all of them. */
  lemma AllBefore(hs: seq<Hit>, s: Shape, offset: nat, limit: nat, x: int)
    requires NoRepeats(hs) && OwnPage(hs, s, offset, limit, x) && OfOwner(Page(offset, limit, hs), s, x) != []
    ensures |OfOwner(hs[..offset], s, x)| == offset
  {
    var l := OfOwner(hs, s, x);
    var a, b := PageSlice(offset, limit, hs);
    SomeHit(Page(offset, limit, hs), s, x);
    var i, j := ShareSlice(hs, a, b, s, x);
    var c, d := PageSlice(offset, limit, l);
    OfOwnerOnce(hs, s, x);
    assert l[i] == l[i..j][0] == l[c..d][0] == l[c];
  }

  /** A row on the page belongs to the key of every row before the page. */
  lemma OwnerBefore(hs: seq<Hit>, s: Shape, offset: nat, limit: nat, b: nat, m: nat, i: nat, y: int)
    requires NoRepeats(hs) && i < offset <= m < b <= |hs| && Page(offset, limit, hs) == hs[offset..b]
    requires OwnerOf(s, hs[m]) == Some(y) && OwnPage(hs, s, offset, limit, y)
    ensures OwnerOf(s, hs[i]) == Some(y)
  {
    assert hs[offset..b][m - offset] == hs[m];
    HasOwn(hs[offset..b], s, y, m - offset);
    AllBefore(hs, s, offset, limit, y);
    OfOwnerAll(hs[..offset], s, y);
    assert hs[..offset][i] == hs[i];
  }

  /** A row up to the end of the page belongs to the key of the first row. */
  lemma FirstOwner(hs: seq<Hit>, s: Shape, keys: seq<int>, offset: nat, limit: nat, b: nat, m: nat)
    requires NoRepeats(hs) && Owned(hs, s, keys) && 0 < offset < b <= |hs| && m < b
    requires Page(offset, limit, hs) == hs[offset..b]
    requires OwnPages(hs, s, keys, offset, limit)
    ensures OwnerOf(s, hs[m]) == OwnerOf(s, hs[0])
  {
    var y := KeyAt(hs, s, keys, if m < offset then offset else m);
    OwnerBefore(hs, s, offset, limit, b, if m < offset then offset else m, 0, y);
    if m < offset { OwnerBefore(hs, s, offset, limit, b, offset, m, y); }
  }

  /** A key without a row on the page has no page of its own. */
  lemma NotOnPage(hs: seq<Hit>, s: Shape, offset: nat, limit: nat, y: int)
    requires limit > 0 && OwnPage(hs, s, offset, limit, y) && OfOwner(Page(offset, limit, hs), s, y) == []
    ensures |OfOwner(hs, s, y)| <= offset
  {
  }

  lemma OthersSkipped(hs: seq<Hit>, s: Shape, offset: nat, limit: nat, b: nat, y: int)
    requires limit > 0 && offset < b <= |hs| && Page(offset, limit, hs) == hs[offset..b]
    requires OwnPage(hs, s, offset, limit, y)
    requires forall m | 0 <= m < b :: OwnerOf(s, hs[m]) != Some(y)
    ensures |OfOwner(hs, s, y)| <= offset
  {
    forall i | 0 <= i < b - offset ensures OwnerOf(s, hs[offset..b][i]) != Some(y) {
      assert hs[offset..b][i] == hs[offset + i];
    }
    OfOwnerNone(hs[offset..b], s, y);
    NotOnPage(hs, s, offset, limit, y);
  }

  lemma PageEnd(hs: seq<Hit>, offset: nat, limit: nat) returns (b: nat)
    requires offset < |hs|
    ensures offset < b <= |hs| && Page(offset, limit, hs) == hs[offset..b]
            && (b < |hs| ==> limit > 0 && b == offset + limit)
  {
    var a;
    a, b := PageSlice(offset, limit, hs);
    assert |Page(offset, limit, hs)| > 0;
    if b < |hs| { assert |Page(offset, limit, hs)| == b - offset; }
  }

  /** The first b rows belong to the key of the first. */
  ghost predicate OwnedAlike(hs: seq<Hit>, s: Shape, b: nat)
    requires 0 < b <= |hs|
  {
    forall m | 0 <= m < b :: OwnerOf(s, hs[m]) == OwnerOf(s, hs[0])
  }

  lemma AlikeIsOne(hs: seq<Hit>, s: Shape, b: nat)
    requires 0 < b <= |hs| && OwnedAlike(hs, s, b)
    ensures OneOwner(hs[..b], s)
    ensures !OneOwner(hs, s) ==> b < |hs|
  {
    forall i, j | 0 <= i < b && 0 <= j < b ensures OwnerOf(s, hs[..b][i]) == OwnerOf(s, hs[..b][j]) {
      assert hs[..b][i] == hs[i] && hs[..b][j] == hs[j];
    }
    if b == |hs| { assert hs[..b] == hs; }
  }

  lemma AllOthersSkipped(hs: seq<Hit>, s: Shape, keys: seq<int>, offset: nat, limit: nat, b: nat)
    requires limit > 0 && offset < b <= |hs| && Page(offset, limit, hs) == hs[offset..b] && OwnedAlike(hs, s, b)
    requires OwnPages(hs, s, keys, offset, limit)
    ensures OthersFew(hs, s, keys, offset)
  {
    forall y | y in keys && OwnerOf(s, hs[0]) != Some(y) ensures |OfOwner(hs, s, y)| <= offset {
      OthersSkipped(hs, s, offset, limit, b, y);
    }
  }

  lemma AllAlike(hs: seq<Hit>, s: Shape, keys: seq<int>, offset: nat, limit: nat, b: nat)
    requires NoRepeats(hs) && Owned(hs, s, keys) && 0 < offset < b <= |hs| && Page(offset, limit, hs) == hs[offset..b]
    requires OwnPages(hs, s, keys, offset, limit)
    ensures OwnedAlike(hs, s, b)
  {
    forall m | 0 <= m < b ensures OwnerOf(s, hs[m]) == OwnerOf(s, hs[0]) {
      FirstOwner(hs, s, keys, offset, limit, b, m);
    }
  }

  /** Where several keys have rows, and the offset skips some of them, every key gets its own page only if the page
      belongs to one key. */
  lemma OwnPagesOnly(hs: seq<Hit>, s: Shape, keys: seq<int>, offset: nat, limit: nat)
    requires NoRepeats(hs) && Owned(hs, s, keys) && 0 < offset < |hs| && !OneOwner(hs, s)
    requires OwnPages(hs, s, keys, offset, limit)
    ensures OneOnPage(hs, s, keys, offset, limit)
  {
    var b := PageEnd(hs, offset, limit);
    AllAlike(hs, s, keys, offset, limit, b);
    AlikeIsOne(hs, s, b);
    AllOthersSkipped(hs, s, keys, offset, limit, b);
  }

  /** Every key gets its own page out of the page of the batch if and only if there is only one key with rows, or the
      offset skips everything, or there is nothing to skip and nothing to cut, or the page belongs to one key and the
      others have no more rows than the offset skips. */
  lemma PageExactRows(hs: seq<Hit>, s: Shape, keys: seq<int>, offset: nat, limit: nat)
    requires NoRepeats(hs) && Owned(hs, s, keys)
    ensures (forall x | x in keys :: OwnPage(hs, s, offset, limit, x)) <==> Harmless(hs, s, keys, offset, limit)
  {
    if Harmless(hs, s, keys, offset, limit) {
      forall x | x in keys ensures OwnPage(hs, s, offset, limit, x) {
        HarmlessOwn(hs, s, keys, offset, limit, x);
      }
    }
    if forall x | x in keys :: OwnPage(hs, s, offset, limit, x) {
      if offset == 0 {
        if limit > 0 { LimitExactRows(hs, s, keys, limit); }
      } else if offset < |hs| && !OneOwner(hs, s) {
        OwnPagesOnly(hs, s, keys, offset, limit);
      }
    }
  }

  lemma HarmlessOwn(hs: seq<Hit>, s: Shape, keys: seq<int>, offset: nat, limit: nat, x: int)
    requires Harmless(hs, s, keys, offset, limit) && x in keys
    ensures OwnPage(hs, s, offset, limit, x)
  {
    if OneOwner(hs, s) {
      OneOwnerPage(hs, s, offset, limit, x);
    } else if |hs| <= offset {
      OfOwnerAll(hs, s, x);
      assert OfOwner([], s, x) == [];
    } else if offset == 0 && (limit == 0 || |hs| <= limit) {
      OfOwnerAll(hs, s, x);
      assert hs[0..] == hs && OfOwner(hs, s, x)[0..] == OfOwner(hs, s, x);
    } else {
      OneOnPageOwn(hs, s, keys, offset, limit, x);
    }
  }

  // ---------------------------------------------------------------- the statements

  lemma PlainOnce(db: Database, q: Request)
    requires ValidDatabase(db) && LinkedOnce(Rows(db, AccountGroups)) && q.joins == []
    ensures NoRepeats(Base(db, q))
  {
    var rows := Rows(db, q.table);
    forall i, j | 0 <= i < j < |rows| ensures rows[i] != rows[j] {
      if HasID(q.table) { assert rows[i].id != rows[j].id; }
    }
  }

  /** The hits of a batch are all different. */
  lemma BatchOnce(db: Database, sub: Plan, s: Shape, keys: seq<int>)
    requires WellTyped(sub) && sub.joins == [] && ValidDatabase(db) && LinkedOnce(Rows(db, AccountGroups))
    requires s.M2M? ==> HasID(sub.table)
    ensures NoRepeats(Unlimited(db, RequestOf(Sent(sub, s, keys))))
  {
    var q := RequestOf(Sent(sub, s, keys));
    if s.M2M? { JoinOnce(Rows(db, AccountGroups), Rows(db, sub.table), keys); } else { PlainOnce(db, q); }
    ArrangeOnce(q.order, Base(db, q));
    FilterOnce(q.preds, Arrange(q.order, Base(db, q)));
  }

  /** A nested query with a limit and an offset, either of which may be missing, on an edge of whatever kind: every
      key of the batch gets the page that a query for it alone would return if and only if paging the batch is
      harmless. */
  lemma PageExact(db: Database, sub: Plan, s: Shape, keys: seq<int>)
    requires WellTyped(sub) && sub.joins == [] && ValidDatabase(db) && LinkedOnce(Rows(db, AccountGroups))
    requires s.M2M? ==> HasID(sub.table)
    ensures (forall x | x in keys :: RightShare(db, sub, s, keys, x)) <==>
            Harmless(Unlimited(db, RequestOf(Sent(sub, s, keys))), s, keys, sub.offset.GetOr(0), sub.limit.GetOr(0))
  {
    var rows, offset, limit := Unlimited(db, RequestOf(Sent(sub, s, keys))), sub.offset.GetOr(0), sub.limit.GetOr(0);
    BatchOnce(db, sub, s, keys);
    BatchOwned(db, sub, s, keys);
    PageExactRows(rows, s, keys, offset, limit);
    forall x | x in keys ensures RightShare(db, sub, s, keys, x) <==> OwnPage(rows, s, offset, limit, x) {
      AloneRows(db, sub, s, keys, x);
    }
  }

  // ---------------------------------------------------------------- the edges

  /** The hits of a key are rows of the table, with the same owner. */
  lemma ShareHit(db: Database, sub: Plan, s: Shape, keys: seq<int>, x: int, h: Hit)
    requires WellTyped(sub) && sub.joins == [] && h in OfOwner(Unlimited(db, RequestOf(Sent(sub, s, keys))), s, x)
    ensures h.row in Rows(db, sub.table) && h.owner == if s.M2M? then x else 0
  {
    var q := RequestOf(Sent(sub, s, keys));
    OfOwnerMembers(Unlimited(db, q), s, x, h);
    FilterMembers(q.preds, Arrange(q.order, Base(db, q)), h);
    ArrangeMembers(q.order, Base(db, q), h);
    if s.M2M? {
      JoinMembers(Rows(db, AccountGroups), Rows(db, sub.table), keys, h);
    } else {
      var i :| 0 <= i < |Rows(db, sub.table)| && Base(db, q)[i] == h;
    }
  }

  /** On a table with ids, nodes tell which hits they are made of. */
  lemma NodesTell(db: Database, sub: Plan, s: Shape, keys: seq<int>, x: int, a: seq<Hit>, b: seq<Hit>, h: Hit)
    requires WellTyped(sub) && sub.joins == [] && HasID(sub.table) && ValidDatabase(db)
    requires forall g | g in a || g in b :: g in OfOwner(Unlimited(db, RequestOf(Sent(sub, s, keys))), s, x)
    requires SameEnts(s, Decoded(Sent(sub, s, keys), a), Decoded(Sent(sub, s, keys), b)) && h in a
    ensures h in b
  {
    var q := Sent(sub, s, keys);
    var d, e := Decoded(q, a), Decoded(q, b);
    KeysFetched(q.table, q.fields, LoadedFlags(q));
    var i :| 0 <= i < |a| && a[i] == h;
    assert d[i] in multiset(d) && d[i] in multiset(e);
    var j :| 0 <= j < |e| && e[j] == d[i];
    assert b[j] in b && e[j].id == b[j].row.id && d[i].id == h.row.id;
    ShareHit(db, sub, s, keys, x, h);
    ShareHit(db, sub, s, keys, x, b[j]);
    UniqueRow(Rows(db, sub.table), h.row, b[j].row);
  }

  /** The share of the page and the page of the share are the same as soon as they have the same hits. */
  lemma SameHits(hs: seq<Hit>, s: Shape, offset: nat, limit: nat, x: int)
    requires NoRepeats(hs)
    requires forall h :: h in OfOwner(Page(offset, limit, hs), s, x) <==> h in Page(offset, limit, OfOwner(hs, s, x))
    ensures OwnPage(hs, s, offset, limit, x)
  {
    var l := OfOwner(hs, s, x);
    OfOwnerOnce(hs, s, x);
    var a, b := PageSlice(offset, limit, hs);
    var i, j := ShareSlice(hs, a, b, s, x);
    var c, d := PageSlice(offset, limit, l);
    SameSlice(l, i, j, c, d);
  }

  lemma FromShare(hs: seq<Hit>, s: Shape, offset: nat, limit: nat, x: int, h: Hit)
    ensures h in OfOwner(Page(offset, limit, hs), s, x) ==> h in OfOwner(hs, s, x)
    ensures h in Page(offset, limit, OfOwner(hs, s, x)) ==> h in OfOwner(hs, s, x)
  {
    OfOwnerMembers(hs, s, x, h);
    OfOwnerMembers(Page(offset, limit, hs), s, x, h);
  }

  lemma SlicesTell(db: Database, sub: Plan, s: Shape, keys: seq<int>, x: int)
    requires WellTyped(sub) && sub.joins == [] && HasID(sub.table) && ValidDatabase(db)
    requires LinkedOnce(Rows(db, AccountGroups))
    requires x in keys
    ensures Tells(db, sub, s, keys, x)
  {
    var rows, offset, limit := Unlimited(db, RequestOf(Sent(sub, s, keys))), sub.offset.GetOr(0), sub.limit.GetOr(0);
    var share, own := OfOwner(Hits(db, RequestOf(Sent(sub, s, keys))), s, x), Hits(db, RequestOf(Sent(sub, s, [x])));
    AloneRows(db, sub, s, keys, x);
    BatchOnce(db, sub, s, keys);
    assert share == OfOwner(Page(offset, limit, rows), s, x) && own == Page(offset, limit, OfOwner(rows, s, x));
    forall h | h in share || h in own ensures h in OfOwner(rows, s, x) { FromShare(rows, s, offset, limit, x, h); }
    if SameEnts(s, Decoded(Sent(sub, s, keys), share), Decoded(Sent(sub, s, keys), own)) {
      forall h ensures h in share <==> h in own {
        if h in share { NodesTell(db, sub, s, keys, x, share, own, h); }
        if h in own { NodesTell(db, sub, s, keys, x, own, share, h); }
      }
      SameHits(rows, s, offset, limit, x);
    }
  }

  /** So every node of the batch gets the neighbours that its own paged query would return if and only if paging the
      batch is harmless. Nodes of the id-less link table do not tell which rows they are made of; for them there is no
      offset. */
  lemma PagedEdges(db: Database, p: Plan, ents: seq<Entity>, k: nat)
    requires WellTyped(p) && ValidDatabase(db) && LinkedOnce(Rows(db, AccountGroups)) && k < |p.subs| && p.subs[k].Some?
    requires var sub := p.subs[k].value; sub.joins == [] && (HasID(sub.table) || sub.offset.GetOr(0) == 0)
    ensures var sub, s := p.subs[k].value, Edges(p.table)[k].shape;
            var keys := BatchKeys(s, ents);
              (forall i | 0 <= i < |ents| :: RightEdge(db, p, ents, i, k)) <==>
              Harmless(Unlimited(db, RequestOf(Sent(sub, s, keys))), s, keys, sub.offset.GetOr(0), sub.limit.GetOr(0))
  {
    var sub, s := p.subs[k].value, Edges(p.table)[k].shape;
    var keys := BatchKeys(s, ents);
    forall x | x in keys ensures Tells(db, sub, s, keys, x) {
      if HasID(sub.table) { SlicesTell(db, sub, s, keys, x); } else { EquallyLong(db, sub, s, keys, x); }
    }
    PageExact(db, sub, s, keys);
    AllShares(db, p, ents, k);
  }

  /** The same for the trees of a whole run and of the per-node lookup. */
  lemma PagedRun(db: Database, p: Plan, k: nat)
    requires WellTyped(p) && ValidDatabase(db) && LinkedOnce(Rows(db, AccountGroups)) && k < |p.subs| && p.subs[k].Some?
    requires var sub := p.subs[k].value; sub.joins == [] && (HasID(sub.table) || sub.offset.GetOr(0) == 0)
    ensures var sub, s, vs, ws := p.subs[k].value, Edges(p.table)[k].shape, Eval(db, p), Naive(db, p);
            var keys := BatchKeys(s, Entities(db, Prepared(p)));
              && |vs| == |ws|
              && (forall i | 0 <= i < |vs| :: vs[i].ent == ws[i].ent && |vs[i].edges| == |ws[i].edges| == |p.subs|)
              && ((forall i | 0 <= i < |vs| :: SameEnts(s, EntsOf(vs[i].edges[k]), EntsOf(ws[i].edges[k]))) <==>
                  Harmless(Unlimited(db, RequestOf(Sent(sub, s, keys))), s, keys, sub.offset.GetOr(0),
                      sub.limit.GetOr(0)))
  {
    PagedEdges(db, Prepared(p), Entities(db, Prepared(p)), k);
    RunEdgesRight(db, p, k);
  }

  // ---------------------------------------------------------------- a run that a limit cuts

  function ChildrenOf(limit: nat): Plan {
    NewPlan(Accounts, []).(subs := [None, None, None, Some(NewPlan(Accounts, []).(limit := Some(limit))), None, None])
  }

  /** Accounts a and b with the children c and d. */
  function TwoParents(a: int, b: int, c: int, d: int): Database {
    Database(map[Accounts := [Row(a, map[]), Row(b, map[]),
                              Row(c, map[Ref(ParentAccountID) := Int(a)]),
                              Row(d, map[Ref(ParentAccountID) := Int(b)])]])
  }

  /** Some node has different neighbours along edge k in the two results. */
  ghost predicate EdgesDiffer(vs: seq<Val>, ws: seq<Val>, k: nat) {
    exists i | 0 <= i < |vs| && i < |ws| ::
      k < |vs[i].edges| && k < |ws[i].edges| && EntsOf(vs[i].edges[k]) != EntsOf(ws[i].edges[k])
  }

  lemma SomeDiffer(vs: seq<Val>, ws: seq<Val>, k: nat, s: Shape)
    requires |vs| == |ws| && forall i | 0 <= i < |vs| :: k < |vs[i].edges| && k < |ws[i].edges|
    requires !forall i | 0 <= i < |vs| :: SameEnts(s, EntsOf(vs[i].edges[k]), EntsOf(ws[i].edges[k]))
    ensures EdgesDiffer(vs, ws, k)
  {
    var i :| 0 <= i < |vs| && !SameEnts(s, EntsOf(vs[i].edges[k]), EntsOf(ws[i].edges[k]));
    assert EntsOf(vs[i].edges[k]) != EntsOf(ws[i].edges[k]);
  }

  /** Two nodes with a neighbour each: with a limit of one on the nested query, the loaded edges of the batch are not
      those of the nodes' own queries. */
  lemma LimitCuts(db: Database, p: Plan, k: nat, g: Row, h: Row, fk: ForeignKey)
    requires WellTyped(p) && ValidDatabase(db) && LinkedOnce(Rows(db, AccountGroups)) && k < |p.subs| && p.subs[k].Some?
    requires Edges(p.table)[k].shape == O2M(fk)
    requires var sub := p.subs[k].value;
               && sub.joins == [] && sub.limit == Some(1) && sub.offset.GetOr(0) == 0 && sub.preds == []
               && sub.inters == []
               && g in Rows(db, sub.table) && h in Rows(db, sub.table)
    requires var ids := IDs(Entities(db, Prepared(p)));
               && RefAt(g.cells, fk).Some? && RefAt(g.cells, fk).value in ids
               && RefAt(h.cells, fk).Some? && RefAt(h.cells, fk).value in ids
    requires RefAt(g.cells, fk) != RefAt(h.cells, fk)
    ensures EdgesDiffer(Eval(db, p), Naive(db, p), k)
  {
    var sub, s, ids := p.subs[k].value, Edges(p.table)[k].shape, IDs(Entities(db, Prepared(p)));
    var rows := Unlimited(db, RequestOf(Sent(sub, s, ids)));
    InBatch(db, sub, fk, ids, g);
    InBatch(db, sub, fk, ids, h);
    TwoOwners(rows, s, Hit(0, g), Hit(0, h));
    LimitedRun(db, p, k, 1);
    SomeDiffer(Eval(db, p), Naive(db, p), k, s);
  }

  lemma TwoOwners(hs: seq<Hit>, s: Shape, g: Hit, h: Hit)
    requires g in hs && h in hs && OwnerOf(s, g) != OwnerOf(s, h)
    ensures |hs| > 1 && !OneOwner(hs, s)
  {
    var i :| 0 <= i < |hs| && hs[i] == g;
    var j :| 0 <= j < |hs| && hs[j] == h;
    assert OwnerOf(s, hs[i]) != OwnerOf(s, hs[j]);
  }

  lemma InBatch(db: Database, sub: Plan, fk: ForeignKey, ids: seq<int>, g: Row)
    requires WellTyped(sub) && sub.joins == [] && sub.preds == [] && sub.inters == [] && g in Rows(db, sub.table)
    requires RefAt(g.cells, fk).Some? && RefAt(g.cells, fk).value in ids
    ensures Hit(0, g) in Unlimited(db, RequestOf(Sent(sub, O2M(fk), ids)))
  {
    var q := RequestOf(Sent(sub, O2M(fk), ids));
    assert q.preds == [RefIn(fk, ids)];
    var i :| 0 <= i < |Rows(db, sub.table)| && Rows(db, sub.table)[i] == g;
    assert Base(db, q)[i] == Hit(0, g);
    FilterMembers(q.preds, Arrange(q.order, Base(db, q)), Hit(0, g));
    ArrangeMembers(q.order, Base(db, q), Hit(0, g));
  }

  /** A query for all accounts finds each of them. */
  lemma EveryAccount(db: Database, p: Plan, r: Row)
    requires WellTyped(p) && ForAll(p) && r in Rows(db, Accounts)
    ensures r.id in IDs(Entities(db, Prepared(p)))
  {
    var q := Prepared(p);
    var rows, ents := NodeRows(db, RequestOf(q)), Entities(db, q);
    assert q.preds == [];
    var i :| 0 <= i < |Rows(db, Accounts)| && Rows(db, Accounts)[i] == r;
    assert Base(db, RequestOf(q))[i] == Hit(0, r);
    HitsMembers(db, RequestOf(q), Hit(0, r));
    var j :| 0 <= j < |Hits(db, RequestOf(q))| && Hits(db, RequestOf(q))[j] == Hit(0, r);
    KeysFetched(q.table, q.fields, LoadedFlags(q));
    assert rows[j] == r && ents[j].id == r.id && IDs(ents)[j] == r.id;
  }

  lemma TwoParentsValid(a: int, b: int, c: int, d: int)
    requires a != b && a != c && a != d && b != c && b != d && c != d
    ensures ValidDatabase(TwoParents(a, b, c, d)) && LinkedOnce(Rows(TwoParents(a, b, c, d), AccountGroups))
  {
  }

  lemma ChildrenPlan(p: Plan, limit: nat)
    requires p == ChildrenOf(limit)
    ensures WellTyped(p) && ForAll(p) && |p.subs| == 6
            && p.subs[3] == Some(NewPlan(Accounts, []).(limit := Some(limit)))
  {
  }

  /** All accounts with their children, at most one each: the query for a batch finds a child of one of two parents. */
  lemma OneChildEach(a: int, b: int, c: int, d: int)
    requires a != b && a != c && a != d && b != c && b != d && c != d
    ensures var db, p := TwoParents(a, b, c, d), ChildrenOf(1);
              ValidDatabase(db) && WellTyped(p) && EdgesDiffer(Eval(db, p), Naive(db, p), 3)
  {
    TwoParentsValid(a, b, c, d);
    OneChildAs(TwoParents(a, b, c, d), ChildrenOf(1), a, b, c, d);
  }

  lemma TwoChildren(db: Database, p: Plan, x: Row, y: Row, g: Row, h: Row)
    requires WellTyped(p) && ForAll(p) && |p.subs| == 6 && p.subs[3] == Some(NewPlan(Accounts, []).(limit := Some(1)))
    requires ValidDatabase(db) && LinkedOnce(Rows(db, AccountGroups))
    requires x in Rows(db, Accounts) && y in Rows(db, Accounts) && g in Rows(db, Accounts) && h in Rows(db, Accounts)
    requires RefAt(g.cells, ParentAccountID) == Some(x.id)
    requires RefAt(h.cells, ParentAccountID) == Some(y.id) && x.id != y.id
    ensures EdgesDiffer(Eval(db, p), Naive(db, p), 3)
  {
    EveryAccount(db, p, x);
    EveryAccount(db, p, y);
    LimitCuts(db, p, 3, g, h, ParentAccountID);
  }

  lemma OneChildAs(db: Database, p: Plan, a: int, b: int, c: int, d: int)
    requires a != b && db == TwoParents(a, b, c, d) && p == ChildrenOf(1)
    requires ValidDatabase(db) && LinkedOnce(Rows(db, AccountGroups))
    ensures WellTyped(p) && EdgesDiffer(Eval(db, p), Naive(db, p), 3)
  {
    ChildrenPlan(p, 1);
    var rows := Rows(db, Accounts);
    assert rows[0] == Row(a, map[]) && rows[1] == Row(b, map[]);
    assert rows[2] == Row(c, map[Ref(ParentAccountID) := Int(a)])
        && rows[3] == Row(d, map[Ref(ParentAccountID) := Int(b)]);
    assert rows == [rows[0], rows[1], rows[2], rows[3]];
    TwoChildren(db, p, rows[0], rows[1], rows[2], rows[3]);
  }
}
