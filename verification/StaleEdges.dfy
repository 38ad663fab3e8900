/**
 Running a whole builder again on databases that have changed: exactly when a foreign-key edge still holds what a fresh
 builder would find (backend/ent/account_query.go:378-384, :704, :736, :765, :798, :828).
 */
module StaleEdges {
  import opened Wrappers
  import opened Schema
  import opened Plan
  import opened Eager
  import opened Selection
  import opened Reruns
  import opened Refinement
  import opened Limits
  import opened Stale

  /** ps[0], and the same builder after each run, on whatever databases. */
  ghost predicate Runs(dbs: seq<Database>, ps: seq<Plan>) {
    && |ps| == |dbs| + 1
    && (forall i | 0 <= i < |ps| :: WellTyped(ps[i]))
    && (forall i | 0 < i < |ps| :: ps[i] == AfterRun(dbs[i - 1], ps[i - 1]))
  }

  // ---------------------------------------------------------------- what the runs leave in a neighbour builder

  /** Neighbour builder b asks for what a asks for, and in addition for the predicates ks. */
  ghost predicate Narrowed(a: Plan, b: Plan, s: Shape, ks: seq<Pred>) {
    && a.table == b.table && a.inters == b.inters && LoadedFlags(a) == LoadedFlags(b)
    && RequestOf(a).(preds := []) == RequestOf(b).(preds := [])
    && Narrow(a, s, []).fields == Narrow(b, s, []).fields
    && forall r :: HoldsAll(b.preds + TraverserPreds(b.inters), r) <==>
                   HoldsAll(a.preds + TraverserPreds(a.inters), r) && HoldsAll(ks, r)
  }

  lemma RunNarrows(db: Database, a: Plan, b: Plan, s: Shape, ks: seq<Pred>, keys: seq<int>)
    requires WellTyped(a) && WellTyped(Narrow(b, s, keys)) && !s.M2M? && Narrowed(a, b, s, ks)
    ensures Narrowed(a, AfterRun(db, Narrow(b, s, keys)), s, ks + [KeyPred(s, keys)])
  {
    var n, c, key, t := Narrow(b, s, keys), AfterRun(db, Narrow(b, s, keys)), KeyPred(s, keys),
        TraverserPreds(b.inters);
    AfterRunStatement(db, n);
    RunKeeps(db, b, s, keys, c);
    forall r ensures HoldsAll(c.preds + t, r) <==> HoldsAll(a.preds + t, r) && HoldsAll(ks + [key], r) {
      TwicePreds(b.preds + [key], t, r);
      HoldsThree(b.preds, key, t, r);
      HoldsConcat(b.preds, t, r);
      HoldsThree(ks, key, [], r);
      assert ks + [key] + [] == ks + [key];
    }
    assert Narrow(c, s, []).fields == Narrow(b, s, []).fields;
  }

  /** The key predicate that a run of p leaves in the builder of edge k, if it sends that query. */
  ghost function SentKeys(db: Database, p: Plan, k: nat): seq<Pred>
    requires WellTyped(p) && k < |p.subs| && !Edges(p.table)[k].shape.M2M?
  {
    var s, ents := Edges(p.table)[k].shape, Entities(db, Prepared(p));
    if Queries(Prepared(p), ents, k) then [KeyPred(s, BatchKeys(s, ents))] else []
  }

  function Joined(pss: seq<seq<Pred>>): seq<Pred> {
    if pss == [] then [] else Joined(pss[..|pss| - 1]) + pss[|pss| - 1]
  }

  lemma {:induction false} HoldsJoined(pss: seq<seq<Pred>>, r: Row)
    ensures HoldsAll(Joined(pss), r) <==> forall m | 0 <= m < |pss| :: HoldsAll(pss[m], r)
  {
    if pss != [] {
      HoldsJoined(pss[..|pss| - 1], r);
      HoldsConcat(Joined(pss[..|pss| - 1]), pss[|pss| - 1], r);
    }
  }

  ghost function AllSent(dbs: seq<Database>, p: Plan, k: nat, n: nat): (pss: seq<seq<Pred>>)
    requires WellTyped(p) && k < |p.subs| && n <= |dbs| && !Edges(p.table)[k].shape.M2M?
    ensures |pss| == n && forall m | 0 <= m < n :: pss[m] == SentKeys(dbs[m], p, k)
  {
    seq(n, m requires 0 <= m < n => SentKeys(dbs[m], p, k))
  }

  /** The key predicates that the first n runs have left there. */
  ghost function EarlierKeys(dbs: seq<Database>, p: Plan, k: nat, n: nat): seq<Pred>
    requires WellTyped(p) && k < |p.subs| && n <= |dbs| && !Edges(p.table)[k].shape.M2M?
  {
    Joined(AllSent(dbs, p, k, n))
  }

  lemma OneMoreSent(dbs: seq<Database>, p: Plan, k: nat, n: nat)
    requires WellTyped(p) && k < |p.subs| && 0 < n <= |dbs| && !Edges(p.table)[k].shape.M2M?
    ensures EarlierKeys(dbs, p, k, n) == EarlierKeys(dbs, p, k, n - 1) + SentKeys(dbs[n - 1], p, k)
  {
    assert AllSent(dbs, p, k, n)[..n - 1] == AllSent(dbs, p, k, n - 1);
  }

  /** Where a run of p queries edge k, the row lies in the key set of its batch. */
  ghost predicate InBatchOf(db: Database, p: Plan, k: nat, r: Row)
    requires WellTyped(p) && k < |p.subs| && !Edges(p.table)[k].shape.M2M?
  {
    var s, ents := Edges(p.table)[k].shape, Entities(db, Prepared(p));
    Queries(Prepared(p), ents, k) ==> Holds(KeyPred(s, BatchKeys(s, ents)), r)
  }

  ghost predicate InEveryBatch(dbs: seq<Database>, p: Plan, k: nat, n: nat, r: Row)
    requires WellTyped(p) && k < |p.subs| && n <= |dbs| && !Edges(p.table)[k].shape.M2M?
  {
    forall m | 0 <= m < n :: InBatchOf(dbs[m], p, k, r)
  }

  lemma SentKeysMean(db: Database, p: Plan, k: nat, r: Row)
    requires WellTyped(p) && k < |p.subs| && !Edges(p.table)[k].shape.M2M?
    ensures HoldsAll(SentKeys(db, p, k), r) <==> InBatchOf(db, p, k, r)
  {
    var s, ents := Edges(p.table)[k].shape, Entities(db, Prepared(p));
    if Queries(Prepared(p), ents, k) { assert SentKeys(db, p, k)[0] == KeyPred(s, BatchKeys(s, ents)); }
  }

  lemma EarlierKeysMean(dbs: seq<Database>, p: Plan, k: nat, n: nat, r: Row)
    requires WellTyped(p) && k < |p.subs| && n <= |dbs| && !Edges(p.table)[k].shape.M2M?
    ensures HoldsAll(EarlierKeys(dbs, p, k, n), r) <==> InEveryBatch(dbs, p, k, n, r)
  {
    HoldsJoined(AllSent(dbs, p, k, n), r);
    forall m | 0 <= m < n ensures HoldsAll(AllSent(dbs, p, k, n)[m], r) <==> InBatchOf(dbs[m], p, k, r) {
      SentKeysMean(dbs[m], p, k, r);
    }
  }

  lemma {:induction false} SameBuilder(dbs: seq<Database>, ps: seq<Plan>, n: nat)
    requires Runs(dbs, ps) && n < |ps|
    ensures SameStatement(ps[0], ps[n]) && |ps[n].subs| == |ps[0].subs|
    ensures forall k | 0 <= k < |ps[0].subs| :: ps[0].subs[k].Some? <==> ps[n].subs[k].Some?
  {
    if n != 0 {
      SameBuilder(dbs, ps, n - 1);
      AfterRunStatement(dbs[n - 1], ps[n - 1]);
    }
  }

  /** Every run returns the nodes a fresh run would. */
  lemma SameEntities(dbs: seq<Database>, ps: seq<Plan>, n: nat, db: Database)
    requires Runs(dbs, ps) && n < |ps|
    ensures Entities(db, Prepared(ps[n])) == Entities(db, Prepared(ps[0]))
  {
    SameBuilder(dbs, ps, n);
    SameRows(db, ps[0], ps[n]);
  }

  lemma RunNarrowsEdge(db: Database, a: Plan, p: Plan, k: nat, ks: seq<Pred>)
    requires WellTyped(p) && WellTyped(a) && k < |p.subs| && p.subs[k].Some? && !Edges(p.table)[k].shape.M2M?
    requires Narrowed(a, p.subs[k].value, Edges(p.table)[k].shape, ks)
    ensures var r, s := AfterRun(db, p), Edges(p.table)[k].shape;
              r.subs[k].Some? && Narrowed(a, r.subs[k].value, s, ks + SentKeys(db, p, k))
  {
    var s, ents := Edges(p.table)[k].shape, Entities(db, Prepared(p));
    assert AfterRun(db, p).subs[k] == AfterEdge(db, Prepared(p), ents, k);
    if Queries(Prepared(p), ents, k) {
      NarrowHeight(p.subs[k].value, s, BatchKeys(s, ents));
      RunNarrows(db, a, p.subs[k].value, s, ks, BatchKeys(s, ents));
    } else {
      assert ks + [] == ks;
    }
  }

  lemma {:induction false} RunsNarrow(dbs: seq<Database>, ps: seq<Plan>, k: nat, n: nat)
    requires Runs(dbs, ps) && n < |ps| && k < |ps[0].subs| && ps[0].subs[k].Some? && !Edges(ps[0].table)[k].shape.M2M?
    ensures |ps[n].subs| == |ps[0].subs| && ps[n].subs[k].Some? && ps[n].table == ps[0].table
    ensures Narrowed(ps[0].subs[k].value, ps[n].subs[k].value, Edges(ps[0].table)[k].shape,
            EarlierKeys(dbs, ps[0], k, n))
  {
    SameBuilder(dbs, ps, n);
    if n == 0 {
      assert forall r :: HoldsAll([], r);
    } else {
      RunsNarrow(dbs, ps, k, n - 1);
      SameEntities(dbs, ps, n - 1, dbs[n - 1]);
      OneMoreSent(dbs, ps[0], k, n);
      RunNarrowsEdge(dbs[n - 1], ps[0].subs[k].value, ps[n - 1], k, EarlierKeys(dbs, ps[0], k, n - 1));
    }
  }

  // ---------------------------------------------------------------- the statement of a later run

  /** The hits of a later run of an unpaged query are those of a fresh run that satisfy the earlier predicates. */
  lemma LaterHits(db: Database, a: Plan, b: Plan, s: Shape, ks: seq<Pred>, keys: seq<int>)
    requires WellTyped(a) && WellTyped(b) && !s.M2M? && Narrowed(a, b, s, ks)
    requires a.limit.GetOr(0) == 0 && a.offset.GetOr(0) == 0
    ensures Hits(db, RequestOf(Sent(b, s, keys))) == Filter(ks, Hits(db, RequestOf(Sent(a, s, keys))))
    ensures ColumnsOf(Sent(b, s, keys)) == ColumnsOf(Sent(a, s, keys))
  {
    var q, f, t := RequestOf(Sent(b, s, keys)), RequestOf(Sent(a, s, keys)), TraverserPreds(a.inters);
    forall r ensures HoldsAll(q.preds, r) <==> HoldsAll(f.preds, r) && HoldsAll(ks, r) {
      HoldsThree(a.preds, KeyPred(s, keys), t, r);
      HoldsThree(b.preds, KeyPred(s, keys), t, r);
      HoldsConcat(a.preds, t, r);
      HoldsConcat(b.preds, t, r);
    }
    var x, y := RequestOf(a).(preds := []), RequestOf(b).(preds := []);
    assert x.table == y.table && x.order == y.order && x.joins == y.joins && x.limit == y.limit && x.offset == y.offset;
    Unpaged(db, q, f, ks);
    assert LoadedFlags(Sent(a, s, keys)) == LoadedFlags(a) && LoadedFlags(Sent(b, s, keys)) == LoadedFlags(b);
  }

  // ---------------------------------------------------------------- the edges

  /** A loaded foreign-key edge: the hits of the node's key, none without a key. */
  lemma LaterEdge(db: Database, p: Plan, r: Plan, ents: seq<Entity>, i: nat, k: nat, ks: seq<Pred>)
    requires WellTyped(p) && WellTyped(r) && ValidDatabase(db) && i < |ents| && p.table == r.table
    requires k < |p.subs| && |p.subs| == |r.subs| && p.subs[k].Some? && r.subs[k].Some? && !Edges(p.table)[k].shape.M2M?
    requires var sub, s := p.subs[k].value, Edges(p.table)[k].shape;
               sub.joins == [] && sub.limit.GetOr(0) == 0 && sub.offset.GetOr(0) == 0
                   && Narrowed(sub, r.subs[k].value, s, ks)
    ensures var s := Edges(p.table)[k].shape;
              EntsOf(LoadEdge(db, r, ents, i, k)) == EntsOf(LoadEdge(db, p, ents, i, k)) <==>
              KeyFor(s, ents[i]).Some? ==>
                Passing(ks, OfOwner(Hits(db, RequestOf(Sent(p.subs[k].value, s, BatchKeys(s, ents)))), s,
                    KeyFor(s, ents[i]).value))
  {
    var a, b, s := p.subs[k].value, r.subs[k].value, Edges(p.table)[k].shape;
    var keys := BatchKeys(s, ents);
    assert RequestOf(a).(preds := []).joins == RequestOf(b).(preds := []).joins;
    if KeyFor(s, ents[i]).None? {
      NoneWanted(s, Eval(db, Batch(p, ents, k)), Hits(db, RequestOf(Prepared(Batch(p, ents, k)))), ents[i]);
      NoneWanted(s, Eval(db, Batch(r, ents, k)), Hits(db, RequestOf(Prepared(Batch(r, ents, k)))), ents[i]);
    } else {
      var x := KeyFor(s, ents[i]).value;
      LoadedEnts(db, p, ents, i, k, x);
      LoadedEnts(db, r, ents, i, k, x);
      LaterHits(db, a, b, s, ks, keys);
      var hits := Hits(db, RequestOf(Sent(a, s, keys)));
      FilterOwner(ks, hits, s, x);
      SameFiltered(Sent(a, s, keys), Sent(b, s, keys), ks, OfOwner(hits, s, x));
    }
  }

  /** Every one of the rows satisfies the predicates. */
  ghost predicate Passing(ks: seq<Pred>, hs: seq<Hit>) {
    forall h | h in hs :: HoldsAll(ks, h.row)
  }

  lemma SameFiltered(q: Plan, r: Plan, ks: seq<Pred>, hs: seq<Hit>)
    requires WellTyped(q) && WellTyped(r) && q.table == r.table && ColumnsOf(q) == ColumnsOf(r)
    ensures Decoded(r, Filter(ks, hs)) == Decoded(q, hs) <==> Passing(ks, hs)
  {
    FilterLength(ks, hs);
    if Passing(ks, hs) {
      forall i | 0 <= i < |hs| ensures HoldsAll(ks, hs[i].row) { assert hs[i] in hs; }
      assert Decoded(r, hs) == Decoded(q, hs);
    }
  }

  lemma EarlierPassing(dbs: seq<Database>, p: Plan, k: nat, hs: seq<Hit>)
    requires WellTyped(p) && k < |p.subs| && !Edges(p.table)[k].shape.M2M?
    ensures Passing(EarlierKeys(dbs, p, k, |dbs|), hs) <==>
            forall h | h in hs :: InEveryBatch(dbs, p, k, |dbs|, h.row)
  {
    forall h | h in hs
      ensures HoldsAll(EarlierKeys(dbs, p, k, |dbs|), h.row) <==> InEveryBatch(dbs, p, k, |dbs|, h.row)
    {
      EarlierKeysMean(dbs, p, k, |dbs|, h.row);
    }
  }

  lemma EveryShare(hs: seq<Hit>, s: Shape, ents: seq<Entity>, ks: seq<Pred>)
    requires Owned(hs, s, BatchKeys(s, ents))
    ensures Passing(ks, hs) <==>
            forall i | 0 <= i < |ents| ::
              KeyFor(s, ents[i]).Some? ==> Passing(ks, OfOwner(hs, s, KeyFor(s, ents[i]).value))
  {
    if Passing(ks, hs) {
      forall i, h | 0 <= i < |ents| && KeyFor(s, ents[i]).Some? && h in OfOwner(hs, s, KeyFor(s, ents[i]).value)
        ensures HoldsAll(ks, h.row)
      {
        OfOwnerMembers(hs, s, KeyFor(s, ents[i]).value, h);
      }
    }
    if forall i | 0 <= i < |ents| :: KeyFor(s, ents[i]).Some? ==> Passing(ks, OfOwner(hs, s, KeyFor(s, ents[i]).value))
    {
      forall h | h in hs ensures HoldsAll(ks, h.row) {
        var i := KeyOfSome(s, ents, OwnerOf(s, h).value);
        OfOwnerMembers(hs, s, OwnerOf(s, h).value, h);
      }
    }
  }

  /** After any number of runs on any databases, a run returns the nodes a fresh builder would, and along an unpaged,
      unjoined foreign-key edge it finds for every node the neighbours a fresh builder would if and only if every
      neighbour row of the fresh run lies in the key set of every earlier run that queried the edge. */
  lemma StaleEdges(dbs: seq<Database>, ps: seq<Plan>, now: Database, k: nat)
    requires Runs(dbs, ps) && ValidDatabase(now) && k < |ps[0].subs| && ps[0].subs[k].Some?
    requires !Edges(ps[0].table)[k].shape.M2M?
    requires var sub := ps[0].subs[k].value; sub.joins == [] && sub.limit.GetOr(0) == 0 && sub.offset.GetOr(0) == 0
    ensures var p, s := ps[0], Edges(ps[0].table)[k].shape;
            var anew, later := Eval(now, p), Eval(now, ps[|dbs|]);
            var keys := BatchKeys(s, Entities(now, Prepared(p)));
              && |anew| == |later|
              && (forall i | 0 <= i < |anew| ::
                    anew[i].ent == later[i].ent && |anew[i].edges| == |later[i].edges| == |p.subs|)
              && ((forall i | 0 <= i < |anew| :: EntsOf(later[i].edges[k]) == EntsOf(anew[i].edges[k])) <==>
                  forall h | h in Hits(now, RequestOf(Sent(p.subs[k].value, s, keys))) ::
                      InEveryBatch(dbs, p, k, |dbs|, h.row))
  {
    var p, r, s, ks := ps[0], ps[|dbs|], Edges(ps[0].table)[k].shape, EarlierKeys(dbs, ps[0], k, |dbs|);
    RunsNarrow(dbs, ps, k, |dbs|);
    SameEntities(dbs, ps, |dbs|, now);
    var ents := Entities(now, Prepared(p));
    var hits := Hits(now, RequestOf(Sent(p.subs[k].value, s, BatchKeys(s, ents))));
    OwnerKnown(now, p.subs[k].value, s, BatchKeys(s, ents));
    EveryShare(hits, s, ents, ks);
    EarlierPassing(dbs, p, k, hits);
    forall i | 0 <= i < |ents|
      ensures EntsOf(Eval(now, r)[i].edges[k]) == EntsOf(Eval(now, p)[i].edges[k]) <==>
              KeyFor(s, ents[i]).Some? ==> Passing(ks, OfOwner(hits, s, KeyFor(s, ents[i]).value))
    {
      assert Eval(now, p)[i].edges[k] == LoadEdge(now, Prepared(p), ents, i, k);
      assert Eval(now, r)[i].edges[k] == LoadEdge(now, Prepared(r), ents, i, k);
      LaterEdge(now, Prepared(p), Prepared(r), ents, i, k, ks);
    }
  }
}
