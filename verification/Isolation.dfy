/**
 A clone and its original are independent: configuring and running either one leaves the other exactly as it was
 (backend/ent/account_query.go:388-408 against every write to a builder). A builder run again and again returns the
 same.
 */
module Isolation {
  import opened Wrappers
  import opened Schema
  import opened Plan
  import opened Eager
  import opened Builders
  import opened Loading
  import opened Reruns

  /** Configuration calls never join a builder to the link table; only a loader does. */
  lemma {:induction false} ConfiguredLoadable(p: Plan, calls: seq<Call>)
    requires WellTyped(p) && Fits(p.table, calls) && Loadable(p)
    ensures Loadable(Configured(p, calls))
    decreases calls
  {
    if calls != [] {
      var front, last := calls[..|calls| - 1], calls[|calls| - 1];
      ConfiguredLoadable(p, front);
      AppliedLoadable(Configured(p, front), last);
    }
  }

  lemma {:induction false} AppliedLoadable(p: Plan, call: Call)
    requires WellTyped(p) && Fits(p.table, [call]) && Loadable(p)
    ensures Loadable(Applied(p, call))
    decreases call, 0
  {
    assert [call][0] == call;
    if call.With? {
      ConfiguredLoadable(NewPlan(Edges(p.table)[call.k].target, call.inters), call.calls);
    }
  }

  lemma {:induction false} UnlockedLoadable(p: Plan)
    requires WellTyped(p) && SubsLoadable(p)
    ensures WellTyped(Unlocked(p)) && SubsLoadable(Unlocked(p))
    decreases p
  {
    UnlockedTyped(p);
    forall k | 0 <= k < |p.subs| && p.subs[k].Some? ensures SubsLoadable(Unlocked(p.subs[k].value)) {
      UnlockedLoadable(p.subs[k].value);
    }
  }

  /** Configures a builder and runs it. */
  method ConfigureAndRun(query: Query, db: Database, calls: seq<Call>, ghost p: Plan)
    returns (err: Option<Error>, nodes: seq<Node>, ghost S: set<object>)
    requires query.Denotes(p) && WellTyped(p) && Loadable(p) && ValidDatabase(db) && Fits(p.table, calls)
    modifies query.Repr
    ensures fresh(query.Repr - old(query.Repr)) && fresh(S)
    ensures err.None? <==> Passes(db, Configured(p, calls))
    ensures err.None? ==>
              && query.Denotes(AfterRun(db, Configured(p, calls)))
              && AllShow(nodes, Eval(db, Configured(p, calls)), S)
  {
    query.Configure(calls, p);
    ConfiguredLoadable(p, calls);
    ghost var p';
    err, nodes, S, p' := All(query, db, Configured(p, calls));
  }

  /** Whatever is done to a clone, the original stays what it was; the clone returns what the original so configured
      would return. */
  method Fork(query: Query, db: Database, calls: seq<Call>, ghost p: Plan)
    returns (err: Option<Error>, nodes: seq<Node>, ghost S: set<object>)
    requires query.Denotes(p) && WellTyped(p) && Loadable(p) && ValidDatabase(db) && Fits(p.table, calls)
    ensures query.Denotes(p) && fresh(S)
    ensures WellTyped(Unlocked(p)) && (err.None? <==> Passes(db, Configured(Unlocked(p), calls)))
    ensures err.None? ==> AllShow(nodes, Eval(db, Configured(Unlocked(p), calls)), S)
  {
    UnlockedLoadable(p);
    var clone := query.Clone(p);
    err, nodes, S := ConfigureAndRun(clone, db, calls, Unlocked(p));
  }

  /** Whatever is done to the original, a clone taken before still returns what the original would have returned
      then. */
  method Snapshot(query: Query, db: Database, calls: seq<Call>, ghost p: Plan)
    returns (err: Option<Error>, nodes: seq<Node>, ghost S: set<object>)
    requires query.Denotes(p) && WellTyped(p) && Loadable(p) && ValidDatabase(db) && Fits(p.table, calls)
    modifies query.Repr
    ensures fresh(S)
    ensures err.None? <==> Passes(db, p)
    ensures err.None? ==> AllShow(nodes, Eval(db, p), S)
  {
    UnlockedLoadable(p);
    var clone := query.Clone(p);
    var ignored;
    ghost var T, p';
    err, ignored, T := ConfigureAndRun(query, db, calls, p);
    err, nodes, S, p' := All(clone, db, Unlocked(p));
    CloneReturnsSame(db, p);
    ClonePasses(db, p);
  }

  /** A run joins only builders of many-to-many edges, so a builder can be run again and again. */
  lemma {:induction false} AfterRunLoadable(db: Database, p: Plan)
    requires WellTyped(p) && SubsLoadable(p)
    ensures SubsLoadable(AfterRun(db, p)) && AfterRun(db, p).joins == p.joins
    decreases Height(p)
  {
    PreparedHeight(p);
    var q, ents := Prepared(p), Entities(db, Prepared(p));
    forall k | 0 <= k < |q.subs| && q.subs[k].Some?
      ensures SubsLoadable(AfterEdge(db, q, ents, k).value)
      ensures !Edges(q.table)[k].shape.M2M? ==> AfterEdge(db, q, ents, k).value.joins == []
    {
      if Queries(q, ents, k) { AfterRunLoadable(db, Batch(q, ents, k)); }
    }
  }

  /** What the next run will do. */
  lemma NextRun(db: Database, p: Plan)
    requires WellTyped(p) && Loadable(p) && NoOffsets(p) && Passes(db, p)
    ensures var r := AfterRun(db, p);
              && Loadable(r) && NoOffsets(r) && (Passes(db, r) <==> Groupless(db, p))
              && (Groupless(db, p) ==> Groupless(db, r) && Eval(db, r) == Eval(db, p))
  {
    AfterRunLoadable(db, p);
    AfterRunOffsets(db, p);
    RerunExactly(db, p);
    if Groupless(db, p) { OneMoreRun(db, p, AfterRun(db, p)); }
  }

  /** Running one builder any number of times on one database: although every run leaves more predicates in it, and in
      every builder below it, the last run returns what the first would have. It ends with an error exactly if the
      first run does, or if there is a second and a many-to-many query of the first found a row. */
  method RunRepeatedly(query: Query, db: Database, times: nat, ghost p: Plan)
    returns (err: Option<Error>, nodes: seq<Node>, ghost S: set<object>)
    requires query.Denotes(p) && WellTyped(p) && Loadable(p) && NoOffsets(p) && ValidDatabase(db) && times > 0
    modifies query.Repr
    ensures fresh(S) && query.Repr == old(query.Repr)
    ensures err.None? <==> Passes(db, p) && (times > 1 ==> Groupless(db, p))
    ensures err.None? ==> AllShow(nodes, Eval(db, p), S)
  {
    ghost var q;
    err, nodes, S, q := All(query, db, p);
    if err.None? { NextRun(db, p); }
    var i := 1;
    while i < times && err.None?
      invariant 1 <= i <= times && fresh(S) && query.Repr == old(query.Repr) && query.Denotes(q)
      invariant err.Some? ==> !Passes(db, p) || (i > 1 && !Groupless(db, p))
      invariant err.None? ==> Passes(db, p) && (i > 1 ==> Groupless(db, p)) && AllShow(nodes, Eval(db, p), S)
      invariant err.None? ==> WellTyped(q) && Loadable(q) && NoOffsets(q) && (Passes(db, q) <==> Groupless(db, p))
      invariant err.None? && Groupless(db, p) ==> Groupless(db, q) && Eval(db, q) == Eval(db, p)
    {
      if Passes(db, q) { NextRun(db, q); }
      err, nodes, S, q := All(query, db, q);
      i := i + 1;
    }
  }
}
