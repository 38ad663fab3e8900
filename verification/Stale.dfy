/**
 Running a builder again on a database that has changed: its sub-builders are still narrowed to the keys of the earlier
 runs, so a run returns exactly those rows of a fresh run that lie in every earlier key set
 (backend/ent/account_query.go:704, :736, :765, :798, :828).
 */
module Stale {
  import opened Wrappers
  import opened Schema
  import opened Plan
  import opened Eager
  import opened Selection
  import opened Reruns
  import opened Refinement
  import opened Distribution

  lemma HoldsConcat(a: seq<Pred>, b: seq<Pred>, r: Row)
    ensures HoldsAll(a + b, r) <==> HoldsAll(a, r) && HoldsAll(b, r)
  {
    if HoldsAll(a + b, r) {
      forall i | 0 <= i < |a| ensures Holds(a[i], r) { assert (a + b)[i] == a[i]; }
      forall i | 0 <= i < |b| ensures Holds(b[i], r) { assert (a + b)[|a| + i] == b[i]; }
    }
  }

  lemma HoldsThree(a: seq<Pred>, k: Pred, c: seq<Pred>, r: Row)
    ensures HoldsAll(a + [k] + c, r) <==> HoldsAll(a, r) && Holds(k, r) && HoldsAll(c, r)
  {
    HoldsConcat(a + [k], c, r);
    HoldsConcat(a, [k], r);
    assert [k][0] == k;
  }

  /** The key predicates of the first n batches. */
  ghost function KeyPreds(s: Shape, keys: seq<seq<int>>, n: nat): (ps: seq<Pred>)
    requires n <= |keys| && !s.M2M?
    ensures |ps| == n && forall j | 0 <= j < n :: ps[j] == KeyPred(s, keys[j])
  {
    seq(n, j requires 0 <= j < n => KeyPred(s, keys[j]))
  }

  /** What the predicates say that n runs leave in a neighbour builder. */
  lemma {:induction false} BatchPredsMean(keys: seq<seq<int>>, p: Plan, s: Shape, n: nat, r: Row)
    requires n <= |keys| && !s.M2M?
    ensures HoldsAll(BatchPreds(keys, p, s, n), r) <==>
            HoldsAll(p.preds, r) && HoldsAll(KeyPreds(s, keys, n), r)
                && (n > 0 ==> HoldsAll(TraverserPreds(p.inters), r))
  {
    if n != 0 {
      BatchPredsMean(keys, p, s, n - 1, r);
      HoldsThree(BatchPreds(keys, p, s, n - 1), KeyPred(s, keys[n - 1]), TraverserPreds(p.inters), r);
      assert KeyPreds(s, keys, n) == KeyPreds(s, keys, n - 1) + [KeyPred(s, keys[n - 1])];
      HoldsConcat(KeyPreds(s, keys, n - 1), [KeyPred(s, keys[n - 1])], r);
      assert [KeyPred(s, keys[n - 1])][0] == KeyPred(s, keys[n - 1]);
    }
  }

  /** The statement of the n-th run, and the one a fresh builder would send for the same batch. */
  ghost function Rerun(dbs: seq<Database>, keys: seq<seq<int>>, s: Shape, ps: seq<Plan>, n: nat): Request
    requires BatchChain(dbs, keys, s, ps) && n < |ps|
  {
    RequestOf(Sent(ps[n], s, keys[n]))
  }

  ghost function Fresh(dbs: seq<Database>, keys: seq<seq<int>>, s: Shape, ps: seq<Plan>, n: nat): Request
    requires BatchChain(dbs, keys, s, ps) && n < |ps|
  {
    RequestOf(Sent(ps[0], s, keys[n]))
  }

  /** The predicates of the n-th run: those of a fresh run, and all the key sets so far. */
  lemma RerunPreds(dbs: seq<Database>, keys: seq<seq<int>>, s: Shape, ps: seq<Plan>, n: nat, r: Row)
    requires BatchChain(dbs, keys, s, ps) && n < |ps| && !s.M2M?
    ensures HoldsAll(Rerun(dbs, keys, s, ps, n).preds, r) <==>
            HoldsAll(Fresh(dbs, keys, s, ps, n).preds, r) && HoldsAll(KeyPreds(s, keys, n), r)
  {
    BatchChainPreds(dbs, keys, s, ps, n);
    BatchPredsMean(keys, ps[0], s, n, r);
    HoldsThree(ps[n].preds, KeyPred(s, keys[n]), TraverserPreds(ps[n].inters), r);
    HoldsThree(ps[0].preds, KeyPred(s, keys[n]), TraverserPreds(ps[0].inters), r);
  }

  /** Apart from predicates, and fields, which are not part of it, runs do not change a statement. */
  lemma {:induction false} RerunRest(dbs: seq<Database>, keys: seq<seq<int>>, s: Shape, ps: seq<Plan>, n: nat)
    requires BatchChain(dbs, keys, s, ps) && n < |ps| && !s.M2M?
    ensures RequestOf(ps[n]).(preds := []) == RequestOf(ps[0]).(preds := [])
  {
    if n != 0 {
      RerunRest(dbs, keys, s, ps, n - 1);
      RunKeeps(dbs[n - 1], ps[n - 1], s, keys[n - 1], ps[n]);
    }
  }

  lemma RunKeeps(db: Database, p: Plan, s: Shape, keys: seq<int>, r: Plan)
    requires WellTyped(Narrow(p, s, keys)) && !s.M2M? && r == AfterRun(db, Narrow(p, s, keys))
    ensures RequestOf(r).(preds := []) == RequestOf(p).(preds := [])
  {
    AfterRunStatement(db, Narrow(p, s, keys));
  }

  lemma {:induction false} FilterBoth(ps: seq<Pred>, qs: seq<Pred>, ks: seq<Pred>, hs: seq<Hit>)
    requires forall r :: HoldsAll(qs, r) <==> HoldsAll(ps, r) && HoldsAll(ks, r)
    ensures Filter(qs, hs) == Filter(ks, Filter(ps, hs))
  {
    if hs != [] {
      var front, h := hs[..|hs| - 1], hs[|hs| - 1];
      FilterBoth(ps, qs, ks, front);
      assert HoldsAll(qs, h.row) <==> HoldsAll(ps, h.row) && HoldsAll(ks, h.row);
      if HoldsAll(ps, h.row) {
        assert Filter(ps, hs) == Filter(ps, front) + [h];
        assert Filter(ps, hs)[..|Filter(ps, front)|] == Filter(ps, front);
      } else {
        assert Filter(ps, hs) == Filter(ps, front);
        assert Filter(qs, hs) == Filter(qs, front);
      }
    }
  }

  /** The rows of the n-th run of an unpaged query are those of a fresh run, in order, that lie in every earlier key
      set. */
  lemma RerunFilters(dbs: seq<Database>, keys: seq<seq<int>>, s: Shape, ps: seq<Plan>, n: nat, db: Database)
    requires BatchChain(dbs, keys, s, ps) && n < |ps| && !s.M2M? && ps[0].limit.GetOr(0) == 0
    requires ps[0].offset.GetOr(0) == 0
    ensures Hits(db, Rerun(dbs, keys, s, ps, n)) == Filter(KeyPreds(s, keys, n), Hits(db, Fresh(dbs, keys, s, ps, n)))
  {
    var q, f := Rerun(dbs, keys, s, ps, n), Fresh(dbs, keys, s, ps, n);
    RerunRest(dbs, keys, s, ps, n);
    var a, b := RequestOf(ps[n]), RequestOf(ps[0]);
    assert a.(preds := []).order == b.(preds := []).order && a.(preds := []).limit == b.(preds := []).limit;
    assert q.(preds := []) == f.(preds := []);
    forall r ensures HoldsAll(q.preds, r) <==> HoldsAll(f.preds, r) && HoldsAll(KeyPreds(s, keys, n), r) {
      RerunPreds(dbs, keys, s, ps, n, r);
    }
    Unpaged(db, q, f, KeyPreds(s, keys, n));
  }

  lemma Unpaged(db: Database, q: Request, f: Request, ks: seq<Pred>)
    requires q.(preds := []) == f.(preds := []) && f.limit == 0 && f.offset == 0
    requires forall r :: HoldsAll(q.preds, r) <==> HoldsAll(f.preds, r) && HoldsAll(ks, r)
    ensures Hits(db, q) == Filter(ks, Hits(db, f))
  {
    var x, y := q.(preds := []), f.(preds := []);
    assert x.table == y.table && x.order == y.order && x.joins == y.joins && x.limit == y.limit && x.offset == y.offset;
    FilterBoth(f.preds, q.preds, ks, Arrange(f.order, Base(db, f)));
  }

  /** So a run returns what a fresh run would, on whatever database, if and only if every row of the fresh run lies in
      every earlier key set. */
  lemma RerunExact(dbs: seq<Database>, keys: seq<seq<int>>, s: Shape, ps: seq<Plan>, n: nat, db: Database)
    requires BatchChain(dbs, keys, s, ps) && n < |ps| && !s.M2M? && ps[0].limit.GetOr(0) == 0
    requires ps[0].offset.GetOr(0) == 0
    requires ps[0].joins == []
    ensures var hits := Hits(db, Fresh(dbs, keys, s, ps, n));
              NodeRows(db, Rerun(dbs, keys, s, ps, n)) == NodeRows(db, Fresh(dbs, keys, s, ps, n)) <==>
              forall i, j | 0 <= i < |hits| && 0 <= j < n :: Holds(KeyPred(s, keys[j]), hits[i].row)
  {
    var q, f, ks := Rerun(dbs, keys, s, ps, n), Fresh(dbs, keys, s, ps, n), KeyPreds(s, keys, n);
    RerunFilters(dbs, keys, s, ps, n, db);
    RerunRest(dbs, keys, s, ps, n);
    assert RequestOf(ps[n]).(preds := []).joins == RequestOf(ps[0]).(preds := []).joins;
    FilterLength(ks, Hits(db, f));
    assert |NodeRows(db, q)| == |Hits(db, q)| && |NodeRows(db, f)| == |Hits(db, f)|;
    assert forall i | 0 <= i < |Hits(db, f)| ::
      HoldsAll(ks, Hits(db, f)[i].row) <==> forall j | 0 <= j < n :: Holds(KeyPred(s, keys[j]), Hits(db, f)[i].row);
  }

  // ---------------------------------------------------------------- what that does to an edge

  /** The neighbours of a second run have keys of the first. */
  lemma SecondKeys(before: Database, now: Database, sub: Plan, fk: ForeignKey, first: seq<int>, second: seq<int>,
                   rerun: Plan)
    requires WellTyped(sub) && HasID(sub.table) && WellTyped(Narrow(sub, M2O(fk), first)) && WellTyped(rerun)
    requires rerun == AfterRun(before, Narrow(sub, M2O(fk), first)) && WellTyped(Narrow(rerun, M2O(fk), second))
    ensures forall v | v in Eval(now, Narrow(rerun, M2O(fk), second)) :: v.ent.id in first
  {
    var s, q, vs := M2O(fk), Sent(rerun, M2O(fk), second), Eval(now, Narrow(rerun, M2O(fk), second));
    AfterRunStatement(before, Narrow(sub, s, first));
    KeysFetched(q.table, q.fields, LoadedFlags(q));
    forall v | v in vs ensures v.ent.id in first {
      var j :| 0 <= j < |vs| && vs[j] == v;
      NodeRowsHold(now, RequestOf(q), j);
      assert q.preds[|sub.preds|] == IDIn(first);
      assert v.ent == Entities(now, q)[j];
    }
  }

  /** After a run, a many-to-one edge of a later run is nil for every node whose key was not in the first batch,
      whatever the database then holds. */
  lemma StaleEdge(before: Database, now: Database, p: Plan, i: nat, k: nat, fk: ForeignKey)
    requires WellTyped(p) && k < |p.subs| && p.subs[k].Some? && Edges(p.table)[k].shape == M2O(fk)
    requires Queries(Prepared(p), Entities(before, Prepared(p)), k)
    requires i < |Eval(now, AfterRun(before, p))|
    requires forall x | x in DistinctKeys(Entities(before, Prepared(p)), fk) ::
            KeyOf(Eval(now, AfterRun(before, p))[i].ent, fk) != Some(x)
    ensures k < |Eval(now, AfterRun(before, p))[i].edges| && Eval(now, AfterRun(before, p))[i].edges[k] == One(None)
  {
    var r, first := AfterRun(before, p), DistinctKeys(Entities(before, Prepared(p)), fk);
    PreparedHeight(r);
    var b := Prepared(r);
    var ents, sub, rerun := Entities(now, b), p.subs[k].value, r.subs[k].value;
    var second := DistinctKeys(ents, fk);
    NarrowHeight(sub, M2O(fk), first);
    NarrowHeight(rerun, M2O(fk), second);
    SecondKeys(before, now, sub, fk, first, second, rerun);
    var vs := Eval(now, Batch(b, ents, k));
    PointerMeaning(M2O(fk), vs, Hits(now, RequestOf(Prepared(Batch(b, ents, k)))), ents[i]);
    assert Eval(now, r)[i].edges[k] == LoadEdge(now, b, ents, i, k);
  }

  /** A later run returns the nodes a fresh run would; only their edges can differ. */
  lemma SameNodes(before: Database, now: Database, p: Plan)
    requires WellTyped(p)
    ensures var r := AfterRun(before, p);
              WellTyped(Prepared(r)) && Entities(now, Prepared(r)) == Entities(now, Prepared(p))
  {
    AfterRunStatement(before, p);
    PreparedHeight(AfterRun(before, p));
    SameRows(now, p, AfterRun(before, p));
  }

  /** A row that passes the neighbour query and has one of the keys becomes a node. */
  lemma FoundRow(db: Database, sub: Plan, fk: ForeignKey, keys: seq<int>, row: Row) returns (v: Val)
    requires WellTyped(sub) && HasID(sub.table) && WellTyped(Narrow(sub, M2O(fk), keys)) && row.id in keys
    requires sub.joins == [] && sub.limit.GetOr(0) == 0 && sub.offset.GetOr(0) == 0
    requires row in Rows(db, sub.table) && HoldsAll(sub.preds, row) && HoldsAll(TraverserPreds(sub.inters), row)
    ensures v in Eval(db, Narrow(sub, M2O(fk), keys)) && v.ent.id == row.id
  {
    var m, vs := Sent(sub, M2O(fk), keys), Eval(db, Narrow(sub, M2O(fk), keys));
    HoldsThree(sub.preds, IDIn(keys), TraverserPreds(sub.inters), row);
    BaseMember(db, RequestOf(m), row);
    HitsMembers(db, RequestOf(m), Hit(0, row));
    var j :| 0 <= j < |Hits(db, RequestOf(m))| && Hits(db, RequestOf(m))[j] == Hit(0, row);
    KeysFetched(m.table, m.fields, LoadedFlags(m));
    v := vs[j];
    assert v.ent == Entities(db, m)[j];
  }

  /** A neighbour with the key of a node is found by a fresh run, if its row passes the neighbour query. */
  lemma FreshEdge(db: Database, p: Plan, i: nat, k: nat, fk: ForeignKey, row: Row)
    requires WellTyped(p) && k < |p.subs| && p.subs[k].Some? && Edges(p.table)[k].shape == M2O(fk)
    requires var sub := p.subs[k].value;
               && sub.joins == [] && sub.limit.GetOr(0) == 0 && sub.offset.GetOr(0) == 0
               && row in Rows(db, sub.table) && HoldsAll(sub.preds, row) && HoldsAll(TraverserPreds(sub.inters), row)
    requires i < |Entities(db, Prepared(p))| && KeyOf(Entities(db, Prepared(p))[i], fk) == Some(row.id)
    ensures i < |Eval(db, p)| && k < |Eval(db, p)[i].edges| && Eval(db, p)[i].edges[k].One?
            && Eval(db, p)[i].edges[k].node.Some?
  {
    var q, sub := Prepared(p), p.subs[k].value;
    var ents := Entities(db, q);
    KeyInBatch(ents, fk, i);
    var keys := DistinctKeys(ents, fk);
    var vs := Eval(db, Batch(q, ents, k));
    var v := FoundRow(db, sub, fk, keys, row);
    PointerMeaning(M2O(fk), vs, Hits(db, RequestOf(Prepared(Batch(q, ents, k)))), ents[i]);
    assert Eval(db, p)[i].edges[k] == LoadEdge(db, q, ents, i, k);
  }

  lemma BaseMember(db: Database, q: Request, row: Row)
    requires q.joins == [] && row in Rows(db, q.table)
    ensures Hit(0, row) in Base(db, q)
  {
    var i :| 0 <= i < |Rows(db, q.table)| && Rows(db, q.table)[i] == row;
    assert Base(db, q)[i] == Hit(0, row);
  }

  /** So a node whose key is new since the first run loses its neighbour: a fresh run finds it, a later run does not. */
  lemma Lost(before: Database, now: Database, p: Plan, i: nat, k: nat, fk: ForeignKey, row: Row)
    requires WellTyped(p) && k < |p.subs| && p.subs[k].Some? && Edges(p.table)[k].shape == M2O(fk)
    requires Queries(Prepared(p), Entities(before, Prepared(p)), k)
    requires var sub := p.subs[k].value;
               && sub.joins == [] && sub.limit.GetOr(0) == 0 && sub.offset.GetOr(0) == 0
               && row in Rows(now, sub.table) && HoldsAll(sub.preds, row) && HoldsAll(TraverserPreds(sub.inters), row)
    requires i < |Entities(now, Prepared(p))| && KeyOf(Entities(now, Prepared(p))[i], fk) == Some(row.id)
    requires row.id !in DistinctKeys(Entities(before, Prepared(p)), fk)
    ensures var anew, later := Eval(now, p), Eval(now, AfterRun(before, p));
              && |anew| == |later| && i < |later| && anew[i].ent == later[i].ent
              && k < |anew[i].edges| && k < |later[i].edges|
              && anew[i].edges[k].One? && anew[i].edges[k].node.Some? && later[i].edges[k] == One(None)
  {
    FreshEdge(now, p, i, k, fk, row);
    SameNodes(before, now, p);
    StaleEdge(before, now, p, i, k, fk);
  }

  // ---------------------------------------------------------------- many-to-many

  /** A group that the query selects and that is linked to an account of each of the two batches. */
  ghost predicate FoundTwice(db: Database, sub: Plan, first: seq<int>, second: seq<int>, g: Row) {
    && g in Rows(db, sub.table) && HoldsAll(sub.preds + TraverserPreds(sub.inters), g)
    && LinkedToAny(Rows(db, AccountGroups), first, g.id) && LinkedToAny(Rows(db, AccountGroups), second, g.id)
  }

  /** A later run of a many-to-many query ends the program, on whatever database, if and only if there is such a
      group. */
  lemma JoinedTwice(before: Database, now: Database, sub: Plan, first: seq<int>, second: seq<int>)
    requires WellTyped(sub) && sub.joins == [] && sub.offset.GetOr(0) == 0 && WellTyped(Narrow(sub, M2M, first))
    ensures var r := AfterRun(before, Narrow(sub, M2M, first));
              Reads(now, Sent(r, M2M, second)) <==> !exists g :: FoundTwice(now, sub, first, second, g)
  {
    var q := Narrow(sub, M2M, first);
    var r := AfterRun(before, q);
    var n := RequestOf(Sent(r, M2M, second));
    var links, rows, t := Rows(now, AccountGroups), Rows(now, sub.table), TraverserPreds(sub.inters);
    AfterRunStatement(before, q);
    assert n.joins == [first, second] && n.preds == sub.preds + t + t && n.offset == 0;
    if Unlimited(now, n) != [] {
      var h := Unlimited(now, n)[0];
      UnlimitedMembers(now, n, h);
      TwicePreds(sub.preds, t, h.row);
      TwoJoins(links, rows, first, second, h);
      assert FoundTwice(now, sub, first, second, h.row);
    }
    if g :| FoundTwice(now, sub, first, second, g) {
      var a :| a in second && Linking(links, a, g.id);
      TwicePreds(sub.preds, t, g);
      TwoJoins(links, rows, first, second, Hit(a, g));
      UnlimitedMembers(now, n, Hit(a, g));
    }
  }

  lemma TwoJoins(links: seq<Row>, rows: seq<Row>, first: seq<int>, second: seq<int>, h: Hit)
    ensures h in JoinAll(links, rows, [first, second]) <==>
            h.row in rows && h.owner in second && Linking(links, h.owner, h.row.id)
                && LinkedToAny(links, first, h.row.id)
  {
    JoinAllMembers(links, rows, [first, second], h);
    assert [first, second][..1] == [first] && [first][0] == first;
    assert LinkedToEach(links, [first], h.row.id) <==> LinkedToAny(links, first, h.row.id);
  }

  /** So a builder that has loaded a group for some account cannot be run again on the same data. */
  lemma SecondRunFails(db: Database, p: Plan, i: nat, k: nat, g: Row)
    requires WellTyped(p) && Passes(db, p) && NoOffsets(p)
    requires k < |p.subs| && p.subs[k].Some? && Edges(p.table)[k].shape.M2M? && p.subs[k].value.joins == []
    requires var sub := p.subs[k].value; g in Rows(db, sub.table) && HoldsAll(sub.preds + TraverserPreds(sub.inters), g)
    requires i < |Entities(db, Prepared(p))| && Linking(Rows(db, AccountGroups), Entities(db, Prepared(p))[i].id, g.id)
    ensures !Passes(db, AfterRun(db, p))
  {
    var q, ents, sub := Prepared(p), Entities(db, Prepared(p)), p.subs[k].value;
    var batch := RequestOf(Sent(sub, M2M, IDs(ents)));
    assert IDs(ents)[i] == ents[i].id;
    JoinMembers(Rows(db, AccountGroups), Rows(db, sub.table), IDs(ents), Hit(ents[i].id, g));
    UnlimitedMembers(db, batch, Hit(ents[i].id, g));
    assert !GrouplessEdge(db, q, ents, k);
    if Groupless(db, p) { GrouplessAt(db, p, k); }
    RerunFails(db, p);
  }

  // ---------------------------------------------------------------- two databases

  function ProxyOnly(): Plan {
    NewPlan(Accounts, []).(subs := [None, Some(NewPlan(Proxies, [])), None, None, None, None])
  }

  function AccountRow(proxy: int): Row {
    Row(7, map[Ref(ProxyID) := Int(proxy)])
  }

  /** One account, with proxy x, and the proxies a and b. */
  function WithProxy(x: int, a: int, b: int): Database {
    Database(map[Accounts := [AccountRow(x)], Proxies := [Row(a, map[]), Row(b, map[])]])
  }

  lemma OneRowOnly(db: Database, q: Request, r: Row)
    requires Rows(db, q.table) == [r] && q.joins == [] && q.preds == [] && q.limit == 0 && q.offset == 0
    ensures NodeRows(db, q) == [r]
  {
    var h := Hit(0, r);
    assert Base(db, q) == [h];
    assert [h][..0] == [];
    assert Arrange(q.order, [h]) == [h];
    assert Filter(q.preds, [h]) == [h];
  }

  lemma OneEntity(db: Database, p: Plan, r: Row)
    requires WellTyped(p) && HasID(p.table) && p.fields == [] && p.joins == [] && p.preds == []
    requires p.limit == None && p.offset == None && Rows(db, p.table) == [r]
    ensures Entities(db, p) == [Entity(r.id, r.cells)]
  {
    OneRowOnly(db, RequestOf(p), r);
  }

  lemma OneKeyOnly(e: Entity, fk: ForeignKey, x: int)
    requires KeyOf(e, fk) == Some(x)
    ensures DistinctKeys([e], fk) == [x]
  {
    assert [e][..0] == [];
  }

  lemma ProxyMoves(before: Database, now: Database, p: Plan, gone: Row, come: Row, proxy: Row)
    requires WellTyped(p) && p.table == Accounts && p.inters == [] && p.preds == [] && p.fields == [] && p.joins == []
    requires p.limit == None && p.offset == None && p.subs[1] == Some(NewPlan(Proxies, []))
    requires Rows(before, Accounts) == [gone] && Rows(now, Accounts) == [come] && proxy in Rows(now, Proxies)
    requires RefAt(gone.cells, ProxyID).Some? && RefAt(gone.cells, ProxyID) != Some(proxy.id)
    requires RefAt(come.cells, ProxyID) == Some(proxy.id)
    ensures Eval(now, AfterRun(before, p)) != Eval(now, p)
  {
    PreparedHeight(p);
    PlainPrepared(p);
    OneEntity(before, p, gone);
    OneEntity(now, p, come);
    OneKeyOnly(Entity(gone.id, gone.cells), ProxyID, RefAt(gone.cells, ProxyID).value);
    Lost(before, now, p, 0, 1, ProxyID, proxy);
  }

  lemma WithProxyValid(x: int, a: int, b: int)
    requires a != b
    ensures ValidDatabase(WithProxy(x, a, b))
  {
  }

  /** The proxy of an account changes from a to b between two runs of one builder: the second run finds no proxy,
      where a fresh builder finds b. */
  lemma RerunDiffers(a: int, b: int)
    requires a != b
    ensures var before, now, p := WithProxy(a, a, b), WithProxy(b, a, b), ProxyOnly();
              && ValidDatabase(before) && ValidDatabase(now) && WellTyped(p)
              && Eval(now, AfterRun(before, p)) != Eval(now, p)
  {
    var before, now, p, proxy := WithProxy(a, a, b), WithProxy(b, a, b), ProxyOnly(), Row(b, map[]);
    WithProxyValid(a, a, b);
    WithProxyValid(b, a, b);
    assert Rows(now, Proxies)[1] == proxy;
    ProxyMoves(before, now, p, AccountRow(a), AccountRow(b), proxy);
  }

  function GroupsOnly(): Plan {
    NewPlan(Accounts, []).(subs := [Some(NewPlan(Groups, [])), None, None, None, None, None])
  }

  /** Account a, group g, and the link between them. */
  function OneLink(a: int, g: int): Database {
    Database(map[Accounts := [Row(a, map[])], Groups := [Row(g, map[])],
                 AccountGroups := [Row(0, map[Ref(AccountID) := Int(a), Ref(GroupID) := Int(g)])]])
  }

  /** Nothing is selected, and there is nothing to prepare. */
  ghost predicate Simple(p: Plan) {
    p.inters == [] && p.fields == [] && |p.joins| <= 1
  }

  lemma SimpleLeaf(db: Database, p: Plan)
    requires WellTyped(p) && Simple(p) && Edges(p.table) == []
    ensures Passes(db, p)
  {
    PlainPrepared(p);
    PassesIntro(db, p, Entities(db, p));
  }

  lemma SimpleTree(db: Database, p: Plan)
    requires WellTyped(p) && Simple(p)
    requires forall k | 0 <= k < |p.subs| && p.subs[k].Some? ::
               Simple(p.subs[k].value) && p.subs[k].value.joins == [] && Edges(p.subs[k].value.table) == []
    ensures Passes(db, p)
  {
    PlainPrepared(p);
    var ents := Entities(db, p);
    forall k | 0 <= k < |p.subs| ensures PassesEdge(db, p, ents, k) {
      if Queries(p, ents, k) { SimpleLeaf(db, Batch(p, ents, k)); }
    }
    PassesIntro(db, p, ents);
  }

  lemma OneGroup(db: Database, p: Plan, account: Row, link: Row, g: Row)
    requires WellTyped(p) && Simple(p) && p.table == Accounts && p.preds == [] && p.joins == []
    requires p.limit == None && p.offset == None && Rows(db, Accounts) == [account]
    requires Passes(db, p) && NoOffsets(p) && p.subs[0] == Some(NewPlan(Groups, []))
    requires g in Rows(db, Groups) && link in Rows(db, AccountGroups) && Links(link, account.id, g.id)
    ensures !Passes(db, AfterRun(db, p))
  {
    PlainPrepared(p);
    OneEntity(db, p, account);
    SecondRunFails(db, p, 0, 0, g);
  }

  lemma OneLinkValid(a: int, g: int)
    ensures ValidDatabase(OneLink(a, g))
  {
  }

  lemma GroupsOnlySimple(p: Plan)
    requires p == GroupsOnly()
    ensures WellTyped(p) && Simple(p) && NoOffsets(p) && |p.subs| == 6 && p.subs[0] == Some(NewPlan(Groups, []))
    ensures forall k | 0 <= k < |p.subs| && p.subs[k].Some? ::
              Simple(p.subs[k].value) && p.subs[k].value.joins == [] && Edges(p.subs[k].value.table) == []
    ensures p.table == Accounts && p.preds == [] && p.joins == [] && p.limit == None && p.offset == None
  {
    assert forall k | 0 < k < |p.subs| :: p.subs[k].None?;
  }

  /** The plain query for all accounts with their groups runs once, and not a second time. */
  lemma GroupsTwice(a: int, g: int)
    ensures var db, p := OneLink(a, g), GroupsOnly();
              ValidDatabase(db) && WellTyped(p) && Passes(db, p) && !Passes(db, AfterRun(db, p))
  {
    GroupsTwiceAs(a, g, GroupsOnly());
  }

  lemma GroupsTwiceAs(a: int, g: int, p: Plan)
    requires p == GroupsOnly()
    ensures var db := OneLink(a, g);
              ValidDatabase(db) && WellTyped(p) && Passes(db, p) && !Passes(db, AfterRun(db, p))
  {
    var db, link := OneLink(a, g), Row(0, map[Ref(AccountID) := Int(a), Ref(GroupID) := Int(g)]);
    OneLinkValid(a, g);
    GroupsOnlySimple(p);
    SimpleTree(db, p);
    assert Rows(db, AccountGroups)[0] == link && Rows(db, Groups)[0] == Row(g, map[]);
    OneGroup(db, p, Row(a, map[]), link, Row(g, map[]));
  }

  lemma PlainPrepared(p: Plan)
    requires p.inters == []
    ensures Prepared(p) == p
  {
    assert p.preds + [] == p.preds;
  }
}
