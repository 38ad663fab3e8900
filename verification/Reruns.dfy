/**
 Running a builder again, running a clone, and selecting fields: what changes and what does not
 (backend/ent/account_query.go:388-408, :704, :736, :765, :798, :828, :866-880).
 */
module Reruns {
  import opened Wrappers
  import opened Schema
  import opened Plan
  import opened Eager
  import opened Selection

  // ---------------------------------------------------------------- what a load depends on

  /** Two neighbour queries a loader cannot tell apart. */
  ghost predicate SameBatch(db: Database, s: Shape, a: Plan, b: Plan)
    requires WellTyped(a) && WellTyped(b)
  {
    Eval(db, a) == Eval(db, b) && (s.M2M? ==> Hits(db, RequestOf(Prepared(a))) == Hits(db, RequestOf(Prepared(b))))
  }

  lemma LoadEdgeCongruent(db: Database, a: Plan, b: Plan, ents: seq<Entity>, i: nat, k: nat)
    requires WellTyped(a) && WellTyped(b) && a.table == b.table && i < |ents| && k < |a.subs|
    requires a.subs[k].Some? <==> b.subs[k].Some?
    requires a.subs[k].Some? ==> SameBatch(db, Edges(a.table)[k].shape, Batch(a, ents, k), Batch(b, ents, k))
    ensures LoadEdge(db, a, ents, i, k) == LoadEdge(db, b, ents, i, k)
  {
    var s := Edges(a.table)[k].shape;
    if a.subs[k].Some? && !s.M2M? {
      var q, r := Batch(a, ents, k), Batch(b, ents, k);
      ResolveHits(s, Eval(db, q), Hits(db, RequestOf(Prepared(q))), Hits(db, RequestOf(Prepared(r))), ents[i]);
    }
  }

  /** A load depends on the builder only through its table, the set of loaded edges and their batch queries. */
  lemma LoadCongruent(db: Database, a: Plan, b: Plan, ents: seq<Entity>)
    requires WellTyped(a) && WellTyped(b) && a.table == b.table
    requires forall k | 0 <= k < |a.subs| :: a.subs[k].Some? <==> b.subs[k].Some?
    requires ents != [] ==> forall k | 0 <= k < |a.subs| && a.subs[k].Some? ::
               SameBatch(db, Edges(a.table)[k].shape, Batch(a, ents, k), Batch(b, ents, k))
    ensures Load(db, a, ents) == Load(db, b, ents)
  {
    var x, y := Load(db, a, ents), Load(db, b, ents);
    assert LoadedFlags(a) == LoadedFlags(b);
    forall i | 0 <= i < |ents| ensures x[i] == y[i] {
      forall k | 0 <= k < |a.subs| ensures x[i].edges[k] == y[i].edges[k] {
        LoadEdgeCongruent(db, a, b, ents, i, k);
      }
      assert x[i].edges == y[i].edges;
    }
  }

  lemma {:induction false} FilterCongruent(ps: seq<Pred>, qs: seq<Pred>, hs: seq<Hit>)
    requires forall r :: HoldsAll(ps, r) <==> HoldsAll(qs, r)
    ensures Filter(ps, hs) == Filter(qs, hs)
  {
    if hs != [] { FilterCongruent(ps, qs, hs[..|hs| - 1]); }
  }

  /** The statement of a builder and one whose predicates mean the same. */
  ghost predicate SameStatement(a: Plan, b: Plan) {
    && a.(preds := [], subs := [], locks := []) == b.(preds := [], subs := [], locks := [])
    && forall r :: HoldsAll(Prepared(a).preds, r) <==> HoldsAll(Prepared(b).preds, r)
  }

  lemma SameRows(db: Database, a: Plan, b: Plan)
    requires WellTyped(a) && WellTyped(b) && SameStatement(a, b)
    requires forall k | 0 <= k < |a.subs| :: a.subs[k].Some? <==> b.subs[k].Some?
    ensures WellTyped(Prepared(a)) && WellTyped(Prepared(b))
    ensures Hits(db, RequestOf(Prepared(a))) == Hits(db, RequestOf(Prepared(b)))
    ensures Entities(db, Prepared(a)) == Entities(db, Prepared(b))
  {
    PreparedHeight(a);
    PreparedHeight(b);
    var q, r := RequestOf(Prepared(a)), RequestOf(Prepared(b));
    assert a.(preds := [], subs := [], locks := []).fields == b.(preds := [], subs := [], locks := []).fields;
    FilterCongruent(q.preds, r.preds, Arrange(q.order, Base(db, q)));
    assert LoadedFlags(Prepared(a)) == LoadedFlags(Prepared(b));
  }

  // ---------------------------------------------------------------- running again

  /** No many-to-many query of a run finds a row. */
  ghost predicate Groupless(db: Database, p: Plan)
    requires WellTyped(p)
    decreases Height(p), 1
  {
    PreparedHeight(p);
    forall k | 0 <= k < |p.subs| :: GrouplessEdge(db, Prepared(p), Entities(db, Prepared(p)), k)
  }

  ghost predicate GrouplessEdge(db: Database, q: Plan, ents: seq<Entity>, k: nat)
    requires WellTyped(q) && k < |q.subs|
    decreases Height(q), 0
  {
    Queries(q, ents, k) ==>
      if Edges(q.table)[k].shape.M2M? then Unlimited(db, RequestOf(Prepared(Batch(q, ents, k)))) == []
      else Groupless(db, Batch(q, ents, k))
  }

  lemma GrouplessAt(db: Database, p: Plan, k: nat)
    requires WellTyped(p) && Groupless(db, p) && k < |p.subs|
    ensures GrouplessEdge(db, Prepared(p), Entities(db, Prepared(p)), k)
  {
  }

  /** No loaded edge of the tree is many-to-many. */
  ghost predicate NoM2M(p: Plan)
    requires WellTyped(p)
    decreases p
  {
    forall k | 0 <= k < |p.subs| && p.subs[k].Some? :: !Edges(p.table)[k].shape.M2M? && NoM2M(p.subs[k].value)
  }

  lemma {:induction false} NoM2MGroupless(db: Database, p: Plan)
    requires WellTyped(p) && NoM2M(p)
    ensures Groupless(db, p) && NoOffsets(p)
    decreases Height(p)
  {
    PreparedHeight(p);
    var q, ents := Prepared(p), Entities(db, Prepared(p));
    NoM2MOffsets(p);
    forall k | 0 <= k < |p.subs| ensures GrouplessEdge(db, q, ents, k) {
      if Queries(q, ents, k) {
        NarrowHeight(q.subs[k].value, Edges(q.table)[k].shape, BatchKeys(Edges(q.table)[k].shape, ents));
        NoM2MGroupless(db, Batch(q, ents, k));
      }
    }
  }

  lemma {:induction false} NoM2MOffsets(p: Plan)
    requires WellTyped(p) && NoM2M(p)
    ensures NoOffsets(p)
    decreases p
  {
    forall k | 0 <= k < |p.subs| && p.subs[k].Some? ensures NoOffsets(p.subs[k].value) {
      NoM2MOffsets(p.subs[k].value);
    }
  }

  // ---------------------------------------------------------------- joining again

  lemma UnlimitedMembers(db: Database, q: Request, h: Hit)
    ensures h in Unlimited(db, q) <==> h in Base(db, q) && HoldsAll(q.preds, h.row)
  {
    FilterMembers(q.preds, Arrange(q.order, Base(db, q)), h);
    ArrangeMembers(q.order, Base(db, q), h);
  }

  /** The statement b is a once more joined to the links, for the accounts ids. */
  ghost predicate JoinedOver(a: Request, b: Request, ids: seq<int>) {
    && a.joins != [] && b.joins == a.joins + [ids] && a.table == b.table
    && forall r :: HoldsAll(a.preds, r) <==> HoldsAll(b.preds, r)
  }

  /** Joining again finds no row that was not found before, and all of them for the same accounts. */
  lemma JoinedAgain(db: Database, a: Request, b: Request, ids: seq<int>)
    requires JoinedOver(a, b, ids)
    ensures Unlimited(db, a) == [] ==> Unlimited(db, b) == []
    ensures ids == a.joins[|a.joins| - 1] && Unlimited(db, a) != [] ==> Unlimited(db, b) != []
  {
    var links, rows := Rows(db, AccountGroups), Rows(db, a.table);
    assert b.joins[..|b.joins| - 1] == a.joins;
    if Unlimited(db, b) != [] {
      var h := Unlimited(db, b)[0];
      UnlimitedMembers(db, b, h);
      JoinAgainMembers(links, JoinAll(links, rows, a.joins), ids, h);
      var g :| g in JoinAll(links, rows, a.joins) && g.row == h.row;
      UnlimitedMembers(db, a, g);
    }
    if ids == a.joins[|a.joins| - 1] && Unlimited(db, a) != [] {
      var h := Unlimited(db, a)[0];
      UnlimitedMembers(db, a, h);
      JoinAllMembers(links, rows, a.joins, h);
      assert IsHit(JoinAll(links, rows, a.joins), h.row);
      JoinAgainMembers(links, JoinAll(links, rows, a.joins), ids, h);
      UnlimitedMembers(db, b, h);
    }
  }

  /** A run of a many-to-many builder, and its statement when it is narrowed again. */
  lemma RejoinedStatement(db: Database, p: Plan, keys: seq<int>)
    requires WellTyped(p) && WellTyped(Narrow(p, M2M, keys))
    ensures var r := AfterRun(db, Narrow(p, M2M, keys));
              && WellTyped(Narrow(r, M2M, keys))
              && JoinedOver(RequestOf(Sent(p, M2M, keys)), RequestOf(Sent(r, M2M, keys)), keys)
              && RequestOf(Sent(p, M2M, keys)).joins[|p.joins|] == keys
              && RequestOf(Sent(r, M2M, keys)).offset == RequestOf(Sent(p, M2M, keys)).offset
  {
    var q := Narrow(p, M2M, keys);
    var r := AfterRun(db, q);
    AfterRunStatement(db, q);
    NarrowHeight(r, M2M, keys);
    var t := TraverserPreds(p.inters);
    forall x ensures HoldsAll(Sent(p, M2M, keys).preds, x) <==> HoldsAll(Sent(r, M2M, keys).preds, x) {
      TwicePreds(p.preds, t, x);
    }
  }

  /** Narrowing a builder to keys it is already narrowed to does not change its statement. */
  lemma NarrowAgainStatement(p: Plan, r: Plan, s: Shape, keys: seq<int>)
    requires !s.M2M?
    requires r == Narrow(p, s, keys).(preds := r.preds, subs := r.subs)
    requires |r.preds| >= |Narrow(p, s, keys).preds|
    requires r.preds[..|Narrow(p, s, keys).preds|] == Narrow(p, s, keys).preds
    ensures SameStatement(r, Narrow(r, s, keys))
  {
    var n := Narrow(r, s, keys);
    var extra := n.preds[|r.preds|];
    assert r.preds[|p.preds|] == extra;
    assert n.fields == r.fields;
    forall x ensures HoldsAll(Prepared(r).preds, x) <==> HoldsAll(Prepared(n).preds, x) {
      SamePreds(r.preds, extra, TraverserPreds(r.inters), |p.preds|, x);
    }
  }

  lemma NarrowAgain(db: Database, p: Plan, r: Plan, s: Shape, keys: seq<int>)
    requires WellTyped(p) && WellTyped(r) && !s.M2M?
    requires r == Narrow(p, s, keys).(preds := r.preds, subs := r.subs)
    requires |r.preds| >= |Narrow(p, s, keys).preds|
    requires r.preds[..|Narrow(p, s, keys).preds|] == Narrow(p, s, keys).preds
    ensures WellTyped(Narrow(r, s, keys)) && Eval(db, Narrow(r, s, keys)) == Eval(db, r)
  {
    var n := Narrow(r, s, keys);
    NarrowHeight(r, s, keys);
    NarrowAgainStatement(p, r, s, keys);
    SameRows(db, r, n);
    LoadCongruentSubs(db, Prepared(r), Prepared(n), Entities(db, Prepared(r)));
  }

  lemma SamePreds(ps: seq<Pred>, extra: Pred, ts: seq<Pred>, j: nat, x: Row)
    requires j < |ps| && ps[j] == extra
    ensures HoldsAll(ps + ts, x) <==> HoldsAll(ps + [extra] + ts, x)
  {
    var a, b := ps + ts, ps + [extra] + ts;
    if HoldsAll(a, x) {
      forall i | 0 <= i < |b| ensures Holds(b[i], x) {
        if i < |ps| {
          assert b[i] == a[i];
        } else if i == |ps| {
          assert a[j] == extra;
        } else {
          assert b[i] == a[i - 1];
        }
      }
    }
    if HoldsAll(b, x) {
      forall i | 0 <= i < |a| ensures Holds(a[i], x) {
        if i < |ps| { assert a[i] == b[i]; } else { assert a[i] == b[i + 1]; }
      }
    }
  }

  lemma LoadCongruentSubs(db: Database, a: Plan, b: Plan, ents: seq<Entity>)
    requires WellTyped(a) && WellTyped(b) && a.table == b.table && a.subs == b.subs
    ensures Load(db, a, ents) == Load(db, b, ents)
  {
    forall k | 0 <= k < |a.subs| && a.subs[k].Some? ensures Batch(a, ents, k) == Batch(b, ents, k) {
    }
    LoadCongruent(db, a, b, ents);
  }

  /** What a run does to a builder's own statement: its predicates grow by those of its traversers. */
  lemma AfterRunStatement(db: Database, p: Plan)
    requires WellTyped(p)
    ensures AfterRun(db, p) == p.(preds := p.preds + TraverserPreds(p.inters), subs := AfterRun(db, p).subs)
    ensures SameStatement(p, AfterRun(db, p))
  {
    PreparedHeight(p);
    var t, r := TraverserPreds(p.inters), AfterRun(db, p);
    forall x ensures HoldsAll(Prepared(p).preds, x) <==> HoldsAll(Prepared(r).preds, x) {
      TwicePreds(p.preds, t, x);
    }
  }

  lemma TwicePreds(ps: seq<Pred>, ts: seq<Pred>, x: Row)
    ensures HoldsAll(ps + ts, x) <==> HoldsAll(ps + ts + ts, x)
  {
    var a, b := ps + ts, ps + ts + ts;
    if HoldsAll(a, x) {
      forall i | 0 <= i < |b| ensures Holds(b[i], x) {
        if i < |a| { assert b[i] == a[i]; } else { assert b[i] == a[i - |ts|]; }
      }
    }
    if HoldsAll(b, x) {
      forall i | 0 <= i < |a| ensures Holds(a[i], x) { assert a[i] == b[i]; }
    }
  }

  /** A many-to-many query that finds no row finds none when it is sent again. */
  lemma RejoinedSame(db: Database, p: Plan, keys: seq<int>)
    requires WellTyped(p) && WellTyped(Narrow(p, M2M, keys)) && Unlimited(db, RequestOf(Sent(p, M2M, keys))) == []
    ensures var q := Narrow(p, M2M, keys);
            var n := Narrow(AfterRun(db, q), M2M, keys);
              && WellTyped(n) && SameBatch(db, M2M, q, n) && Unlimited(db, RequestOf(Prepared(n))) == []
  {
    var q := Narrow(p, M2M, keys);
    var r := AfterRun(db, q);
    RejoinedStatement(db, p, keys);
    JoinedAgain(db, RequestOf(Sent(p, M2M, keys)), RequestOf(Sent(r, M2M, keys)), keys);
    NothingFound(db, q);
    NothingFound(db, Narrow(r, M2M, keys));
  }

  lemma NothingFound(db: Database, q: Plan)
    requires WellTyped(q) && Unlimited(db, RequestOf(Prepared(q))) == []
    ensures Hits(db, RequestOf(Prepared(q))) == [] && Eval(db, q) == []
    ensures Reads(db, Prepared(q)) && PassesAll(db, Prepared(q), Entities(db, Prepared(q)))
  {
    assert Entities(db, Prepared(q)) == [];
  }

  /** A second run on the same database that ends without an error returns what the first returned, at every depth. */
  lemma {:induction false} RerunSame(db: Database, p: Plan)
    requires WellTyped(p) && Groupless(db, p)
    ensures Eval(db, AfterRun(db, p)) == Eval(db, p)
    decreases Height(p)
  {
    var r := AfterRun(db, p);
    PreparedHeight(p);
    PreparedHeight(r);
    AfterRunStatement(db, p);
    SameRows(db, p, r);
    var a, b := Prepared(p), Prepared(r);
    var ents := Entities(db, a);
    if ents != [] {
      forall k | 0 <= k < |a.subs| && a.subs[k].Some?
        ensures SameBatch(db, Edges(a.table)[k].shape, Batch(a, ents, k), Batch(b, ents, k))
      {
        var s, keys := Edges(a.table)[k].shape, BatchKeys(Edges(a.table)[k].shape, ents);
        GrouplessAt(db, p, k);
        if Queries(a, ents, k) {
          var q := Batch(a, ents, k);
          if s.M2M? {
            RejoinedSame(db, a.subs[k].value, keys);
          } else {
            AfterRunStatement(db, q);
            RerunSame(db, q);
            NarrowAgain(db, a.subs[k].value, AfterRun(db, q), s, keys);
          }
        }
      }
    }
    LoadCongruent(db, a, b, ents);
  }

  lemma GrouplessCongruent(db: Database, a: Plan, b: Plan)
    requires WellTyped(a) && WellTyped(b) && SameStatement(a, b) && a.subs == b.subs && Groupless(db, a)
    ensures Groupless(db, b)
  {
    PreparedHeight(a);
    PreparedHeight(b);
    SameRows(db, a, b);
    var ents := Entities(db, Prepared(a));
    assert a.(preds := [], subs := [], locks := []).table == b.(preds := [], subs := [], locks := []).table;
    forall k | 0 <= k < |b.subs| ensures GrouplessEdge(db, Prepared(b), ents, k) {
      GrouplessAt(db, a, k);
      if b.subs[k].Some? { assert Batch(Prepared(a), ents, k) == Batch(Prepared(b), ents, k); }
    }
  }

  lemma {:induction false} AfterRunGroupless(db: Database, p: Plan)
    requires WellTyped(p) && Groupless(db, p)
    ensures Groupless(db, AfterRun(db, p))
    decreases Height(p)
  {
    var r := AfterRun(db, p);
    PreparedHeight(p);
    PreparedHeight(r);
    AfterRunStatement(db, p);
    SameRows(db, p, r);
    var a, b := Prepared(p), Prepared(r);
    var ents := Entities(db, a);
    forall k | 0 <= k < |b.subs| ensures GrouplessEdge(db, b, ents, k) {
      GrouplessAt(db, p, k);
      if Queries(b, ents, k) {
        var s, keys := Edges(a.table)[k].shape, BatchKeys(Edges(a.table)[k].shape, ents);
        var q := Batch(a, ents, k);
        if s.M2M? {
          RejoinedSame(db, a.subs[k].value, keys);
        } else {
          AfterRunGroupless(db, q);
          AfterRunStatement(db, q);
          NarrowAgainStatement(a.subs[k].value, AfterRun(db, q), s, keys);
          NarrowHeight(AfterRun(db, q), s, keys);
          GrouplessCongruent(db, AfterRun(db, q), Narrow(AfterRun(db, q), s, keys));
        }
      }
    }
  }

  /** A builder, and the same builder after each of the runs that follow on one database. */
  ghost predicate RunChain(db: Database, ps: seq<Plan>) {
    && ps != [] && WellTyped(ps[|ps| - 1])
    && (|ps| > 1 ==> RunChain(db, ps[..|ps| - 1]) && ps[|ps| - 1] == AfterRun(db, ps[..|ps| - 1][|ps| - 2]))
  }

  /** Every run of a tree whose many-to-many queries find nothing, or that has none, returns the result of the first. */
  lemma {:induction false} EveryRunSame(db: Database, ps: seq<Plan>)
    requires RunChain(db, ps) && WellTyped(ps[0]) && Groupless(db, ps[0])
    ensures Groupless(db, ps[|ps| - 1]) && Eval(db, ps[|ps| - 1]) == Eval(db, ps[0])
  {
    if |ps| > 1 {
      var front := ps[..|ps| - 1];
      EveryRunSame(db, front);
      OneMoreRun(db, front[|front| - 1], ps[|ps| - 1]);
    }
  }

  lemma OneMoreRun(db: Database, p: Plan, r: Plan)
    requires WellTyped(p) && Groupless(db, p) && r == AfterRun(db, p)
    ensures Groupless(db, r) && Eval(db, r) == Eval(db, p)
  {
    AfterRunGroupless(db, p);
    RerunSame(db, p);
  }

  // ---------------------------------------------------------------- whether a second run ends without an error

  /** Whether a run reports an error depends on the statement, the fields and the batch queries below. */
  lemma PassesCongruent(db: Database, a: Plan, b: Plan)
    requires WellTyped(a) && WellTyped(b) && SameStatement(a, b) && PrepareOk(a)
    requires forall k | 0 <= k < |a.subs| :: a.subs[k].Some? <==> b.subs[k].Some?
    requires Reads(db, Prepared(a))
    requires forall k | 0 <= k < |a.subs| && Queries(Prepared(a), Entities(db, Prepared(a)), k) ::
               Passes(db, Batch(Prepared(b), Entities(db, Prepared(a)), k))
    ensures Passes(db, b)
  {
    SameRows(db, a, b);
    var x := a.(preds := [], subs := [], locks := []);
    assert x.fields == b.fields && x.inters == b.inters && x.table == b.table && x.joins == b.joins;
    var ents := Entities(db, Prepared(a));
    forall k | 0 <= k < |b.subs| ensures PassesEdge(db, Prepared(b), ents, k) {
    }
    PassesIntro(db, b, ents);
  }

  lemma PassesIntro(db: Database, p: Plan, ents: seq<Entity>)
    requires WellTyped(p) && PrepareOk(p) && Reads(db, Prepared(p)) && ents == Entities(db, Prepared(p))
    requires PassesUpTo(db, Prepared(p), ents, |p.subs|)
    ensures Passes(db, p)
  {
  }

  lemma PassesPrepares(db: Database, p: Plan)
    requires WellTyped(p) && Passes(db, p)
    ensures PrepareOk(p) && Reads(db, Prepared(p))
  {
  }

  lemma PassesElim(db: Database, p: Plan, k: nat)
    requires WellTyped(p) && Passes(db, p) && k < |p.subs|
    ensures PassesEdge(db, Prepared(p), Entities(db, Prepared(p)), k)
  {
    assert PassesUpTo(db, Prepared(p), Entities(db, Prepared(p)), |p.subs|);
  }

  /** A run without an error whose many-to-many queries found nothing leaves builders that pass again. */
  lemma {:induction false} RerunPasses(db: Database, p: Plan)
    requires WellTyped(p) && Groupless(db, p) && Passes(db, p)
    ensures Passes(db, AfterRun(db, p))
    decreases Height(p)
  {
    var r := AfterRun(db, p);
    PreparedHeight(p);
    PreparedHeight(r);
    AfterRunStatement(db, p);
    var a, b := Prepared(p), Prepared(r);
    var ents := Entities(db, a);
    forall k | 0 <= k < |a.subs| && Queries(a, ents, k) ensures Passes(db, Batch(b, ents, k)) {
      RerunBatchPasses(db, p, k);
    }
    PassesPrepares(db, p);
    PassesCongruent(db, p, r);
  }

  lemma {:induction false} RerunBatchPasses(db: Database, p: Plan, k: nat)
    requires WellTyped(p) && Groupless(db, p) && Passes(db, p) && k < |p.subs|
    requires Queries(Prepared(p), Entities(db, Prepared(p)), k)
    ensures Passes(db, Batch(Prepared(AfterRun(db, p)), Entities(db, Prepared(p)), k))
    decreases Height(p), 0
  {
    PreparedHeight(p);
    var a, ents := Prepared(p), Entities(db, Prepared(p));
    var s, keys := Edges(a.table)[k].shape, BatchKeys(Edges(a.table)[k].shape, ents);
    var q := Batch(a, ents, k);
    PassesElim(db, p, k);
    GrouplessAt(db, p, k);
    AfterRunStatement(db, q);
    if s.M2M? {
      RejoinedPasses(db, a.subs[k].value, keys);
    } else {
      RerunPasses(db, q);
      NarrowAgainPasses(db, a.subs[k].value, AfterRun(db, q), s, keys);
    }
  }

  lemma RejoinedPasses(db: Database, p: Plan, keys: seq<int>)
    requires WellTyped(p) && WellTyped(Narrow(p, M2M, keys)) && Unlimited(db, RequestOf(Sent(p, M2M, keys))) == []
    requires Passes(db, Narrow(p, M2M, keys))
    ensures var n := Narrow(AfterRun(db, Narrow(p, M2M, keys)), M2M, keys);
              WellTyped(n) && Passes(db, n)
  {
    var q := Narrow(p, M2M, keys);
    var n := Narrow(AfterRun(db, q), M2M, keys);
    RejoinedSame(db, p, keys);
    PassesPrepares(db, q);
    AfterRunStatement(db, q);
    PreparedHeight(n);
    NothingFound(db, n);
    assert n.inters == q.inters && n.fields == q.fields && n.table == q.table;
    PassesIntro(db, n, Entities(db, Prepared(n)));
  }

  /** Narrowing a builder to the keys it has does not change whether it passes. */
  lemma NarrowAgainPasses(db: Database, p: Plan, r: Plan, s: Shape, keys: seq<int>)
    requires WellTyped(p) && WellTyped(r) && !s.M2M?
    requires r == Narrow(p, s, keys).(preds := r.preds, subs := r.subs)
    requires |r.preds| >= |Narrow(p, s, keys).preds|
    requires r.preds[..|Narrow(p, s, keys).preds|] == Narrow(p, s, keys).preds
    ensures WellTyped(Narrow(r, s, keys)) && (Passes(db, Narrow(r, s, keys)) <==> Passes(db, r))
  {
    var n := Narrow(r, s, keys);
    NarrowHeight(r, s, keys);
    NarrowAgainStatement(p, r, s, keys);
    assert n.inters == r.inters && n.fields == r.fields && n.table == r.table;
    if Passes(db, r) { SameSubsPass(db, r, n); }
    if Passes(db, n) { SameSubsPass(db, n, r); }
  }

  lemma SameSubsPass(db: Database, a: Plan, b: Plan)
    requires WellTyped(a) && WellTyped(b) && SameStatement(a, b) && a.subs == b.subs && Passes(db, a)
    ensures Passes(db, b)
  {
    PreparedHeight(a);
    PreparedHeight(b);
    SameRows(db, a, b);
    var ents := Entities(db, Prepared(a));
    assert a.(preds := [], subs := [], locks := []).table == b.(preds := [], subs := [], locks := []).table;
    forall k | 0 <= k < |a.subs| && Queries(Prepared(a), ents, k) ensures Passes(db, Batch(Prepared(b), ents, k)) {
      PassesElim(db, a, k);
      assert Batch(Prepared(b), ents, k) == Batch(Prepared(a), ents, k);
    }
    PassesPrepares(db, a);
    PassesCongruent(db, a, b);
  }

  /** No many-to-many builder of the tree has an offset. */
  ghost predicate NoOffsets(p: Plan)
    requires WellTyped(p)
    decreases p
  {
    forall k | 0 <= k < |p.subs| && p.subs[k].Some? ::
      (Edges(p.table)[k].shape.M2M? ==> p.subs[k].value.offset.GetOr(0) == 0) && NoOffsets(p.subs[k].value)
  }

  /** A second run on the same database fails if a many-to-many query of the first found a row: the rows come back
      joined twice, and cannot be assigned. */
  lemma {:induction false} RerunFails(db: Database, p: Plan)
    requires WellTyped(p) && NoOffsets(p) && Passes(db, p) && !Groupless(db, p)
    ensures !Passes(db, AfterRun(db, p))
    decreases Height(p)
  {
    var r := AfterRun(db, p);
    PreparedHeight(p);
    PreparedHeight(r);
    AfterRunStatement(db, p);
    SameRows(db, p, r);
    var a, b := Prepared(p), Prepared(r);
    var ents := Entities(db, a);
    var k :| 0 <= k < |p.subs| && !GrouplessEdge(db, a, ents, k);
    var s, keys := Edges(a.table)[k].shape, BatchKeys(Edges(a.table)[k].shape, ents);
    var q := Batch(a, ents, k);
    if s.M2M? {
      RejoinedFails(db, a.subs[k].value, keys);
    } else {
      PassesElim(db, p, k);
      RerunFails(db, q);
      AfterRunStatement(db, q);
      NarrowAgainPasses(db, a.subs[k].value, AfterRun(db, q), s, keys);
    }
    if Passes(db, r) { PassesElim(db, r, k); }
  }

  lemma RejoinedFails(db: Database, p: Plan, keys: seq<int>)
    requires WellTyped(p) && WellTyped(Narrow(p, M2M, keys)) && p.offset.GetOr(0) == 0
    requires Unlimited(db, RequestOf(Sent(p, M2M, keys))) != []
    ensures var n := Narrow(AfterRun(db, Narrow(p, M2M, keys)), M2M, keys);
              WellTyped(n) && !Passes(db, n)
  {
    var q := Narrow(p, M2M, keys);
    var n := Narrow(AfterRun(db, q), M2M, keys);
    RejoinedStatement(db, p, keys);
    JoinedAgain(db, RequestOf(Sent(p, M2M, keys)), RequestOf(Prepared(n)), keys);
    if Passes(db, n) { PassesPrepares(db, n); }
  }

  /** After a run without an error, the next run on the same database ends without one exactly if no many-to-many query
      found a row. */
  lemma RerunExactly(db: Database, p: Plan)
    requires WellTyped(p) && NoOffsets(p) && Passes(db, p)
    ensures Passes(db, AfterRun(db, p)) <==> Groupless(db, p)
  {
    if Groupless(db, p) { RerunPasses(db, p); } else { RerunFails(db, p); }
  }

  lemma {:induction false} AfterRunOffsets(db: Database, p: Plan)
    requires WellTyped(p) && NoOffsets(p)
    ensures NoOffsets(AfterRun(db, p))
    decreases Height(p)
  {
    PreparedHeight(p);
    var q, ents := Prepared(p), Entities(db, Prepared(p));
    forall k | 0 <= k < |q.subs| && q.subs[k].Some?
      ensures Edges(q.table)[k].shape.M2M? ==> AfterEdge(db, q, ents, k).value.offset.GetOr(0) == 0
      ensures NoOffsets(AfterEdge(db, q, ents, k).value)
    {
      if Queries(q, ents, k) {
        AfterRunOffsets(db, Batch(q, ents, k));
        AfterRunStatement(db, Batch(q, ents, k));
      }
    }
  }

  // ---------------------------------------------------------------- running again on a changed database

  /** ps[0], and the same neighbour builder each time it has been narrowed to another batch and run on another
      database. */
  ghost predicate BatchChain(dbs: seq<Database>, keys: seq<seq<int>>, s: Shape, ps: seq<Plan>) {
    && |ps| <= |dbs| && |ps| <= |keys|
    && (forall i | 0 <= i < |ps| :: WellTyped(ps[i]) && WellTyped(Narrow(ps[i], s, keys[i])))
    && (forall i | 0 < i < |ps| :: ps[i] == AfterRun(dbs[i - 1], Narrow(ps[i - 1], s, keys[i - 1])))
  }

  ghost function KeyPred(s: Shape, keys: seq<int>): Pred
    requires !s.M2M?
  {
    match s
    case M2O(_) => IDIn(keys)
    case O2M(fk) => RefIn(fk, keys)
  }

  /** Its predicates then: the builder's own, and for every run the batch's key predicate and the traversers'. */
  ghost function BatchPreds(keys: seq<seq<int>>, p: Plan, s: Shape, n: nat): seq<Pred>
    requires n <= |keys| && !s.M2M?
  {
    if n == 0 then p.preds else BatchPreds(keys, p, s, n - 1) + [KeyPred(s, keys[n - 1])] + TraverserPreds(p.inters)
  }

  lemma {:induction false} BatchChainPreds(dbs: seq<Database>, keys: seq<seq<int>>, s: Shape, ps: seq<Plan>, n: nat)
    requires BatchChain(dbs, keys, s, ps) && n < |ps| && !s.M2M?
    ensures ps[n].preds == BatchPreds(keys, ps[0], s, n) && ps[n].inters == ps[0].inters
  {
    if n != 0 {
      BatchChainPreds(dbs, keys, s, ps, n - 1);
      BatchRunPreds(dbs[n - 1], ps[n - 1], s, keys[n - 1], ps[n]);
    }
  }

  lemma BatchRunPreds(db: Database, p: Plan, s: Shape, keys: seq<int>, r: Plan)
    requires WellTyped(Narrow(p, s, keys)) && !s.M2M? && r == AfterRun(db, Narrow(p, s, keys))
    ensures r.preds == p.preds + [KeyPred(s, keys)] + TraverserPreds(p.inters) && r.inters == p.inters
  {
    AfterRunStatement(db, Narrow(p, s, keys));
  }

  lemma {:induction false} BatchPredsKeep(keys: seq<seq<int>>, p: Plan, s: Shape, n: nat, j: nat) returns (i: nat)
    requires j < n <= |keys| && !s.M2M?
    ensures i < |BatchPreds(keys, p, s, n)| && BatchPreds(keys, p, s, n)[i] == KeyPred(s, keys[j])
  {
    if j == n - 1 {
      i := |BatchPreds(keys, p, s, n - 1)|;
    } else {
      i := BatchPredsKeep(keys, p, s, n - 1, j);
    }
  }

  /** Every later run of a neighbour query sees the conjunction of all the key sets so far, whatever the databases. */
  lemma KeysConjoined(dbs: seq<Database>, keys: seq<seq<int>>, s: Shape, ps: seq<Plan>, n: nat, r: Row, j: nat)
    requires BatchChain(dbs, keys, s, ps) && j <= n < |ps| && !s.M2M?
    requires r in NodeRows(dbs[n], RequestOf(Sent(ps[n], s, keys[n])))
    ensures Holds(KeyPred(s, keys[j]), r)
  {
    var q := RequestOf(Sent(ps[n], s, keys[n]));
    var i :| 0 <= i < |NodeRows(dbs[n], q)| && NodeRows(dbs[n], q)[i] == r;
    NodeRowsHold(dbs[n], q, i);
    if j == n {
      assert q.preds[|ps[n].preds|] == KeyPred(s, keys[n]);
    } else {
      BatchChainPreds(dbs, keys, s, ps, n);
      var m := BatchPredsKeep(keys, ps[0], s, n, j);
      assert q.preds[m] == ps[n].preds[m];
    }
  }

  // ---------------------------------------------------------------- clones

  ghost predicate NoLocks(p: Plan)
    decreases p
  {
    p.locks == [] && forall k | 0 <= k < |p.subs| && p.subs[k].Some? :: NoLocks(p.subs[k].value)
  }

  lemma {:induction false} UnlockedTyped(p: Plan)
    requires WellTyped(p)
    ensures WellTyped(Unlocked(p)) && Unlocked(p).table == p.table
    decreases p
  {
    forall k | 0 <= k < |p.subs| && p.subs[k].Some? ensures WellTyped(Unlocked(p.subs[k].value)) {
      UnlockedTyped(p.subs[k].value);
    }
  }

  /** A clone holds the same plan exactly when no builder of the tree has a modifier. */
  lemma {:induction false} CloneExact(p: Plan)
    ensures Unlocked(p) == p <==> NoLocks(p)
    decreases p
  {
    var u := Unlocked(p);
    forall k | 0 <= k < |p.subs| && p.subs[k].Some? {
      CloneExact(p.subs[k].value);
    }
    if NoLocks(p) {
      forall k | 0 <= k < |p.subs| ensures u.subs[k] == p.subs[k] { }
      assert u.subs == p.subs;
    }
    if u == p {
      forall k | 0 <= k < |p.subs| && p.subs[k].Some? ensures NoLocks(p.subs[k].value) {
        assert u.subs[k] == p.subs[k];
      }
    }
  }

  lemma UnlockedNarrow(p: Plan, s: Shape, keys: seq<int>)
    ensures Unlocked(Narrow(p, s, keys)) == Narrow(Unlocked(p), s, keys)
  {
    assert Unlocked(Narrow(p, s, keys)).subs == Unlocked(p).subs;
  }

  /** With or without modifiers, a clone returns what the original would. */
  lemma {:induction false} CloneReturnsSame(db: Database, p: Plan)
    requires WellTyped(p)
    ensures WellTyped(Unlocked(p)) && Eval(db, Unlocked(p)) == Eval(db, p)
    decreases Height(p)
  {
    UnlockedTyped(p);
    var u := Unlocked(p);
    PreparedHeight(p);
    PreparedHeight(u);
    SameRows(db, p, u);
    var a, b, ents := Prepared(p), Prepared(u), Entities(db, Prepared(p));
    forall k | 0 <= k < |a.subs| && a.subs[k].Some?
      ensures SameBatch(db, Edges(a.table)[k].shape, Batch(a, ents, k), Batch(b, ents, k))
    {
      CloneReturnsSame(db, Batch(a, ents, k));
      UnlockedNarrow(a.subs[k].value, Edges(a.table)[k].shape, BatchKeys(Edges(a.table)[k].shape, ents));
      assert b.subs[k] == Some(Unlocked(a.subs[k].value));
      assert Batch(b, ents, k) == Unlocked(Batch(a, ents, k));
    }
    LoadCongruent(db, a, b, ents);
  }

  lemma CloneBatch(db: Database, p: Plan, k: nat)
    requires WellTyped(p) && WellTyped(Unlocked(p))
    requires k < |p.subs| && p.subs[k].Some?
    ensures Entities(db, Prepared(Unlocked(p))) == Entities(db, Prepared(p))
    ensures Batch(Prepared(Unlocked(p)), Entities(db, Prepared(p)), k) ==
            Unlocked(Batch(Prepared(p), Entities(db, Prepared(p)), k))
  {
    var ents := Entities(db, Prepared(p));
    SameRows(db, p, Unlocked(p));
    UnlockedNarrow(p.subs[k].value, Edges(p.table)[k].shape, BatchKeys(Edges(p.table)[k].shape, ents));
  }

  /** And it reports an error exactly if the original would. */
  lemma {:induction false} ClonePasses(db: Database, p: Plan)
    requires WellTyped(p)
    ensures WellTyped(Unlocked(p)) && (Passes(db, Unlocked(p)) <==> Passes(db, p))
    decreases Height(p), 1
  {
    UnlockedTyped(p);
    PreparedHeight(p);
    PreparedHeight(Unlocked(p));
    forall k | 0 <= k < |p.subs| && p.subs[k].Some? ensures SameBatchPasses(db, p, k) {
      CloneBatchPasses(db, p, k);
    }
    ClonePassesFrom(db, p);
  }

  ghost predicate SameBatchPasses(db: Database, p: Plan, k: nat)
    requires WellTyped(p) && WellTyped(Unlocked(p)) && k < |p.subs| && p.subs[k].Some?
  {
    Passes(db, Batch(Prepared(Unlocked(p)), Entities(db, Prepared(p)), k)) <==>
        Passes(db, Batch(Prepared(p), Entities(db, Prepared(p)), k))
  }

  lemma {:induction false} CloneBatchPasses(db: Database, p: Plan, k: nat)
    requires WellTyped(p) && WellTyped(Unlocked(p))
    requires k < |p.subs| && p.subs[k].Some?
    ensures SameBatchPasses(db, p, k)
    decreases Height(p), 0
  {
    PreparedHeight(p);
    CloneBatch(db, p, k);
    ClonePasses(db, Batch(Prepared(p), Entities(db, Prepared(p)), k));
  }

  lemma ClonePassesFrom(db: Database, p: Plan)
    requires WellTyped(p) && WellTyped(Unlocked(p))
    requires forall k | 0 <= k < |p.subs| && p.subs[k].Some? :: SameBatchPasses(db, p, k)
    ensures Passes(db, Unlocked(p)) <==> Passes(db, p)
  {
    var u := Unlocked(p);
    SameRows(db, p, u);
    if Passes(db, p) { PassesOver(db, p, u); }
    if Passes(db, u) { PassesOver(db, u, p); }
  }

  lemma PassesOver(db: Database, a: Plan, b: Plan)
    requires WellTyped(a) && WellTyped(b)
    requires SameStatement(a, b) && Passes(db, a) && |a.subs| == |b.subs|
    requires forall k | 0 <= k < |a.subs| :: a.subs[k].Some? <==> b.subs[k].Some?
    requires forall k | 0 <= k < |a.subs| && a.subs[k].Some? ::
               Passes(db, Batch(Prepared(a), Entities(db, Prepared(a)), k)) <==>
                   Passes(db, Batch(Prepared(b), Entities(db, Prepared(a)), k))
    ensures Passes(db, b)
  {
    PassesPrepares(db, a);
    forall k | 0 <= k < |a.subs| && Queries(Prepared(a), Entities(db, Prepared(a)), k)
      ensures Passes(db, Batch(Prepared(b), Entities(db, Prepared(a)), k))
    {
      PassesElim(db, a, k);
    }
    PassesCongruent(db, a, b);
  }

  // ---------------------------------------------------------------- projection

  /** The edge of a node depends on the batch only through its ids and the foreign keys the loaders read. */
  lemma {:induction false} ResolveDepends(s: Shape, vs: seq<Val>, hits: seq<Hit>, d: Entity, e: Entity)
    requires s.M2O? ==> KeyOf(d, s.fk) == KeyOf(e, s.fk)
    requires !s.M2O? ==> d.id == e.id
    ensures Resolve(s, vs, hits, d) == Resolve(s, vs, hits, e)
  {
    if vs != [] { ResolveDepends(s, vs[..|vs| - 1], hits, d, e); }
  }

  lemma {:induction false} DistinctKeysDepend(ds: seq<Entity>, es: seq<Entity>, fk: ForeignKey)
    requires |ds| == |es| && forall i | 0 <= i < |ds| :: KeyOf(ds[i], fk) == KeyOf(es[i], fk)
    ensures DistinctKeys(ds, fk) == DistinctKeys(es, fk)
  {
    if ds != [] { DistinctKeysDepend(ds[..|ds| - 1], es[..|es| - 1], fk); }
  }

  /** Projection keeps the ids and the foreign keys of the loaded many-to-one edges. */
  lemma ProjectedKeys(db: Database, a: Plan, b: Plan, i: nat, k: nat)
    requires WellTyped(a) && b == a.(fields := []) && WellTyped(b) && i < |Entities(db, a)|
    ensures |Entities(db, b)| == |Entities(db, a)|
    ensures HasID(a.table) ==> Entities(db, a)[i].id == Entities(db, b)[i].id
    ensures k < |a.subs| && a.subs[k].Some? && Edges(a.table)[k].shape.M2O? ==>
              KeyOf(Entities(db, a)[i], Edges(a.table)[k].shape.fk) ==
                  KeyOf(Entities(db, b)[i], Edges(a.table)[k].shape.fk)
  {
    assert RequestOf(a) == RequestOf(b) && LoadedFlags(a) == LoadedFlags(b);
    KeysFetched(a.table, a.fields, LoadedFlags(a));
    if k < |a.subs| && a.subs[k].Some? && Edges(a.table)[k].shape.M2O? {
      assert LoadedFlags(a)[k];
      DecodeKeeps(a.table, FetchedColumns(a.table, a.fields, LoadedFlags(a)), NodeRows(db, RequestOf(a))[i],
          Edges(a.table)[k].shape.fk);
    }
  }

  lemma ProjectedEdge(db: Database, a: Plan, b: Plan, i: nat, k: nat)
    requires WellTyped(a) && b == a.(fields := []) && WellTyped(b)
    requires i < |Entities(db, a)| == |Entities(db, b)| && k < |a.subs|
    ensures LoadEdge(db, a, Entities(db, a), i, k) == LoadEdge(db, b, Entities(db, b), i, k)
  {
    var s, ds, es := Edges(a.table)[k].shape, Entities(db, a), Entities(db, b);
    if a.subs[k].Some? {
      forall j | 0 <= j < |ds|
        ensures HasID(a.table) ==> ds[j].id == es[j].id
        ensures s.M2O? ==> KeyOf(ds[j], s.fk) == KeyOf(es[j], s.fk)
      {
        ProjectedKeys(db, a, b, j, k);
      }
      if s.M2O? { DistinctKeysDepend(ds, es, s.fk); } else { assert IDs(ds) == IDs(es); }
      assert Batch(a, ds, k) == Batch(b, es, k);
      ResolveDepends(s, Eval(db, Batch(a, ds, k)), Hits(db, RequestOf(Prepared(Batch(a, ds, k)))), ds[i], es[i]);
    }
  }

  /** Whatever fields are selected, the nodes have the same ids and the same loaded edges as without a selection. */
  lemma ProjectionSafe(db: Database, p: Plan, i: nat)
    requires WellTyped(p) && i < |Eval(db, p)|
    ensures WellTyped(p.(fields := [])) && |Eval(db, p.(fields := []))| == |Eval(db, p)|
    ensures HasID(p.table) ==> Eval(db, p)[i].ent.id == Eval(db, p.(fields := []))[i].ent.id
    ensures Eval(db, p)[i].edges == Eval(db, p.(fields := []))[i].edges
  {
    var p0 := p.(fields := []);
    assert WellTyped(p0);
    PreparedHeight(p);
    PreparedHeight(p0);
    var a, b := Prepared(p), Prepared(p0);
    ProjectedKeys(db, a, b, i, 0);
    ProjectedLoad(db, a, b, i);
  }

  lemma ProjectedLoad(db: Database, a: Plan, b: Plan, i: nat)
    requires WellTyped(a) && b == a.(fields := []) && WellTyped(b) && i < |Entities(db, a)| == |Entities(db, b)|
    ensures Load(db, a, Entities(db, a))[i].edges == Load(db, b, Entities(db, b))[i].edges
  {
    var x, y := Load(db, a, Entities(db, a))[i], Load(db, b, Entities(db, b))[i];
    forall k | 0 <= k < |a.subs| ensures x.edges[k] == y.edges[k] {
      ProjectedEdge(db, a, b, i, k);
    }
    assert x.edges == y.edges;
  }

  /** A projected statement on a table with an id starts with that id, names it once, and otherwise fetches the
      selected fields and the foreign keys of the loaded many-to-one edges, nothing else. */
  lemma FetchedExactly(t: Table, fields: seq<Column>, loaded: seq<bool>, c: Column)
    requires |loaded| == |Edges(t)| && fields != []
    ensures var cols := FetchedColumns(t, fields, loaded).value;
              && (c in cols <==>
                    || (HasID(t) && c == ID)
                    || c in fields
                    || exists k | 0 <= k < |loaded| :: loaded[k] && Edges(t)[k].shape.M2O?
                        && c == Ref(Edges(t)[k].shape.fk))
              && (HasID(t) ==> cols != [] && cols[0] == ID && ID !in cols[1..])
  {
    var base := if HasID(t) then [ID] + Without(fields, ID) else fields;
    WithoutMembers(fields, ID, c);
    AddKeysMembers(t, base, loaded, |loaded|, c);
    if HasID(t) {
      WithoutMembers(fields, ID, ID);
      OnceID(t, base, loaded, |loaded|);
    }
  }

  lemma {:induction false} OnceID(t: Table, cs: seq<Column>, loaded: seq<bool>, n: nat)
    requires n <= |loaded| && n <= |Edges(t)| && cs != [] && cs[0] == ID && ID !in cs[1..]
    ensures AddKeys(t, cs, loaded, n) != [] && AddKeys(t, cs, loaded, n)[0] == ID
            && ID !in AddKeys(t, cs, loaded, n)[1..]
  {
    if n != 0 { OnceID(t, cs, loaded, n - 1); }
  }
}
