/**
 Query builders and loaded nodes as the objects the code keeps them in, and the methods that configure, copy and
 prepare a builder (backend/ent/account_query.go:26-75, :388-474, :515-545; backend/ent/accountgroup_query.go).
 */
module Builders {
  import opened Wrappers
  import opened Schema
  import opened Plan
  import opened Eager

  /** What a run reports; `BadColumn` stands for a failed type assertion, which ends the program. */
  datatype Error = UninitializedInterceptor | InvalidField(c: Column) | ForeignKeyIsNil | UnexpectedNode(id: int)
      | BadColumn

  /** The part of a builder it holds by pointer. */
  class QueryContext {
    var fields: seq<Column>
    var limit: Option<nat>
    var offset: Option<nat>

    constructor (fields: seq<Column>, limit: Option<nat>, offset: Option<nat>)
      ensures this.fields == fields && this.limit == limit && this.offset == offset
    {
      this.fields, this.limit, this.offset := fields, limit, offset;
    }

    method Clone() returns (c: QueryContext)
      ensures fresh(c) && c.fields == fields && c.limit == limit && c.offset == offset
    {
      c := new QueryContext(fields, limit, offset);
    }

    /** The column is selected afterwards, what was selected stays where it was, nothing else is added, and selecting it
        again changes nothing. */
    method AppendFieldOnce(c: Column)
      modifies this`fields
      ensures c in fields && old(fields) <= fields
      ensures forall i | |old(fields)| <= i < |fields| :: fields[i] == c && c !in fields[..i]
      ensures fields == AddOnce(old(fields), c)
    {
      if c !in fields {
        fields := fields + [c];
      }
    }
  }

  /** An edge of a node: a nullable pointer or a slice of pointers. */
  datatype Slot = Pointer(node: Node?) | Slice(nodes: seq<Node>)

  class Node {
    const ent: Entity
    const loaded: seq<bool>
    var edges: seq<Slot>

    constructor (ent: Entity, loaded: seq<bool>, edges: seq<Slot>)
      ensures this.ent == ent && this.loaded == loaded && this.edges == edges
    {
      this.ent, this.loaded, this.edges := ent, loaded, edges;
    }
  }

  /** Node n and everything reachable from it, all within S, is the tree v. */
  ghost predicate Shows(n: Node, v: Val, S: set<object>)
    reads S
    decreases v
  {
    && n in S
    && n.ent == v.ent && n.loaded == v.loaded && |n.edges| == |v.edges|
    && forall k | 0 <= k < |v.edges| :: SlotShows(n.edges[k], v.edges[k], S)
  }

  ghost predicate SlotShows(s: Slot, e: Edge, S: set<object>)
    reads S
    decreases e
  {
    match e
    case One(o) => s.Pointer? && (s.node == null <==> o.None?) && (s.node != null ==> Shows(s.node, o.value, S))
    case Many(vs) => s.Slice? && |s.nodes| == |vs| && forall i | 0 <= i < |vs| :: Shows(s.nodes[i], vs[i], S)
  }

  ghost predicate AllShow(ns: seq<Node>, vs: seq<Val>, S: set<object>)
    reads S
  {
    |ns| == |vs| && forall i | 0 <= i < |vs| :: Shows(ns[i], vs[i], S)
  }

  lemma {:induction false} ShowsMonotone(n: Node, v: Val, S: set<object>, T: set<object>)
    requires Shows(n, v, S) && S <= T
    ensures Shows(n, v, T)
    decreases v
  {
    forall k | 0 <= k < |v.edges| ensures SlotShows(n.edges[k], v.edges[k], T) {
      SlotShowsMonotone(n.edges[k], v.edges[k], S, T);
    }
  }

  lemma {:induction false} SlotShowsMonotone(s: Slot, e: Edge, S: set<object>, T: set<object>)
    requires SlotShows(s, e, S) && S <= T
    ensures SlotShows(s, e, T)
    decreases e
  {
    match e
    case One(o) => if s.node != null { ShowsMonotone(s.node, o.value, S, T); }
    case Many(vs) =>
      forall i | 0 <= i < |vs| ensures Shows(s.nodes[i], vs[i], T) {
        ShowsMonotone(s.nodes[i], vs[i], S, T);
      }
  }

  class Query {
    const table: Table
    const ctx: QueryContext
    var order: seq<Key>
    var inters: seq<Interceptor>
    var preds: seq<Pred>
    var joins: seq<seq<int>>
    var locks: seq<Lock>
    var eager: seq<Query?>
    ghost var Repr: set<object>

    /** This builder and the builders below it hold exactly the plan p, in a tree with no sharing. */
    ghost predicate Denotes(p: Plan)
      reads this, Repr
      decreases p, 0
    {
      && this in Repr && ctx in Repr
      && table == p.table && ctx.fields == p.fields && ctx.limit == p.limit && ctx.offset == p.offset
      && order == p.order && inters == p.inters && preds == p.preds && joins == p.joins && locks == p.locks
      && |eager| == |p.subs| == |Edges(table)|
      && (forall k | 0 <= k < |eager| :: eager[k] == null <==> p.subs[k].None?)
      && (forall k | 0 <= k < |eager| && eager[k] != null ::
            && eager[k] in Repr && eager[k].Repr <= Repr && eager[k].table == Edges(table)[k].target
            && SubDenotes(eager[k], p.subs[k].value))
      && (forall j, k | 0 <= j < k < |eager| && eager[j] != null && eager[k] != null :: eager[j].Repr !! eager[k].Repr)
    }

    ghost predicate SubDenotes(sub: Query, p: Plan)
      reads sub, sub.Repr
      decreases p, 1
    {
      sub in sub.Repr && this !in sub.Repr && ctx !in sub.Repr && sub.Denotes(p)
    }

    lemma {:induction false} TreeWellTyped(p: Plan)
      requires Denotes(p)
      ensures WellTyped(p)
      decreases p
    {
      forall k | 0 <= k < |eager| && eager[k] != null
        ensures p.subs[k].value.table == Edges(table)[k].target && WellTyped(p.subs[k].value)
      {
        assert SubDenotes(eager[k], p.subs[k].value);
        eager[k].TreeWellTyped(p.subs[k].value);
      }
    }

    constructor (table: Table, inters: seq<Interceptor>)
      ensures fresh(Repr) && Denotes(NewPlan(table, inters))
    {
      this.table := table;
      ctx := new QueryContext([], None, None);
      order, preds, joins, locks := [], [], [], [];
      this.inters := inters;
      eager := seq(|Edges(table)|, i => null);
      new;
      Repr := {this, ctx};
    }

    constructor Make(table: Table, ctx: QueryContext, order: seq<Key>, inters: seq<Interceptor>, preds: seq<Pred>,
                     joins: seq<seq<int>>, eager: seq<Query?>, ghost below: set<object>)
      ensures this.table == table && this.ctx == ctx && this.order == order && this.inters == inters
      ensures this.preds == preds && this.joins == joins && this.locks == [] && this.eager == eager
      ensures Repr == {this, ctx} + below
    {
      this.table, this.ctx, this.order, this.inters := table, ctx, order, inters;
      this.preds, this.joins, this.locks, this.eager := preds, joins, [], eager;
      new;
      Repr := {this, ctx} + below;
    }

    method Where(ps: seq<Pred>, ghost p: Plan)
      requires Denotes(p)
      modifies this`preds
      ensures Denotes(p.(preds := p.preds + ps))
    {
      preds := preds + ps;
    }

    method Limit(limit: nat, ghost p: Plan)
      requires Denotes(p)
      modifies ctx`limit
      ensures Denotes(p.(limit := Some(limit)))
    {
      ctx.limit := Some(limit);
    }

    method Offset(offset: nat, ghost p: Plan)
      requires Denotes(p)
      modifies ctx`offset
      ensures Denotes(p.(offset := Some(offset)))
    {
      ctx.offset := Some(offset);
    }

    method Order(o: seq<Key>, ghost p: Plan)
      requires Denotes(p)
      modifies this`order
      ensures Denotes(p.(order := p.order + o))
    {
      order := order + o;
    }

    method Select(fields: seq<Column>, ghost p: Plan)
      requires Denotes(p)
      modifies ctx`fields
      ensures Denotes(p.(fields := p.fields + fields))
    {
      ctx.fields := ctx.fields + fields;
    }

    method AppendFieldOnce(c: Column, ghost p: Plan)
      requires Denotes(p)
      modifies ctx`fields
      ensures Denotes(p.(fields := AddOnce(p.fields, c)))
    {
      ctx.AppendFieldOnce(c);
    }

    /** The many-to-many loader's predicate: join the link table and keep the links of the given accounts. */
    method Join(ids: seq<int>, ghost p: Plan)
      requires Denotes(p)
      modifies this`joins
      ensures Denotes(p.(joins := p.joins + [ids]))
    {
      joins := joins + [ids];
    }

    method Lock(l: Lock, ghost p: Plan)
      requires Denotes(p)
      modifies this`locks
      ensures Denotes(p.(locks := p.locks + [l]))
    {
      locks := locks + [l];
    }

    method Attach(k: nat, query: Query, ghost p: Plan, ghost sub: Plan)
      requires Denotes(p) && query.Denotes(sub) && k < |eager| && query in query.Repr && Repr !! query.Repr
      requires query.table == Edges(table)[k].target
      modifies this`eager, this`Repr
      ensures Denotes(p.(subs := p.subs[k := Some(sub)])) && Repr == old(Repr) + query.Repr
    {
      eager := eager[k := query];
      Repr := Repr + query.Repr;
      ghost var subs := p.subs[k := Some(sub)];
      forall j | 0 <= j < |eager| && eager[j] != null
        ensures SubDenotes(eager[j], subs[j].value)
      {
        if j != k { assert old(SubDenotes(eager[j], p.subs[j].value)); } else { assert SubDenotes(query, sub); }
      }
      assert forall j | 0 <= j < |eager| :: eager[j] == null <==> subs[j].None?;
      assert forall i, j | 0 <= i < j < |eager| && eager[i] != null && eager[j] != null ::
          eager[i].Repr !! eager[j].Repr;
    }

    /** The tree around the builder of edge k: everything Denotes says except what that builder denotes. */
    ghost predicate Around(p: Plan, k: nat, kept: set<object>, below: set<object>)
      reads kept
    {
      && this in kept && ctx in kept && Repr == kept + below && kept !! below
      && table == p.table && ctx.fields == p.fields && ctx.limit == p.limit && ctx.offset == p.offset
      && order == p.order && inters == p.inters && preds == p.preds && joins == p.joins && locks == p.locks
      && |eager| == |p.subs| == |Edges(table)| && k < |eager| && eager[k] != null && eager[k] in below
      && eager[k].table == Edges(table)[k].target
      && (forall j | 0 <= j < |eager| :: eager[j] == null <==> p.subs[j].None?)
      && (forall j | 0 <= j < |eager| && j != k && eager[j] != null ::
            && eager[j] in kept && eager[j].Repr <= kept && eager[j].table == Edges(table)[j].target
            && SubDenotes(eager[j], p.subs[j].value))
      && (forall i, j | 0 <= i < j < |eager| && i != k && j != k && eager[i] != null && eager[j] != null ::
            eager[i].Repr !! eager[j].Repr)
    }

    lemma TakeOut(p: Plan, k: nat)
      requires Denotes(p) && k < |eager| && eager[k] != null
      ensures SubDenotes(eager[k], p.subs[k].value)
      ensures Around(p, k, Repr - eager[k].Repr, eager[k].Repr)
    {
      assert SubDenotes(eager[k], p.subs[k].value);
      forall j | 0 <= j < |eager| && j != k && eager[j] != null
        ensures eager[j] in Repr - eager[k].Repr && eager[j].Repr <= Repr - eager[k].Repr
      {
        assert SubDenotes(eager[j], p.subs[j].value);
        assert eager[j].Repr !! eager[k].Repr;
      }
    }

    lemma PutBack(p: Plan, k: nat, kept: set<object>, sub: Plan)
      requires k < |eager| && eager[k] != null && Around(p, k, kept, eager[k].Repr) && eager[k].Denotes(sub)
      ensures Denotes(p.(subs := p.subs[k := Some(sub)]))
    {
      assert SubDenotes(eager[k], sub);
      forall i, j | 0 <= i < j < |eager| && eager[i] != null && eager[j] != null
        ensures eager[i].Repr !! eager[j].Repr
      {
      }
    }

    /** A fresh builder for edge k, configured by the caller's option functions, replaces whatever the edge had. */
    method With(k: nat, inters: seq<Interceptor>, calls: seq<Call>, ghost p: Plan)
      requires Denotes(p) && k < |Edges(table)| && Fits(Edges(table)[k].target, calls)
      modifies this`eager, this`Repr
      ensures Denotes(p.(subs := p.subs[k := Some(Configured(NewPlan(Edges(table)[k].target, inters), calls))]))
      ensures fresh(Repr - old(Repr))
      decreases calls, 1
    {
      var query := new Query(Edges(table)[k].target, inters);
      query.Configure(calls, NewPlan(query.table, inters));
      Attach(k, query, p, Configured(NewPlan(query.table, inters), calls));
    }

    method Apply(call: Call, ghost p: Plan)
      requires Denotes(p) && WellTyped(p) && Fits(table, [call])
      modifies this, ctx
      ensures Denotes(Applied(p, call)) && fresh(Repr - old(Repr))
      decreases call
    {
      assert [call][0] == call;
      match call {
        case Where(ps) => Where(ps, p);
        case Limit(n) => Limit(n, p);
        case Offset(n) => Offset(n, p);
        case Order(keys) => Order(keys, p);
        case Select(cs) => Select(cs, p);
        case Lock(l) => Lock(l, p);
        case With(k, inters, inner) => With(k, inters, inner, p);
      }
    }

    /** Any sequence of configuration calls. */
    method Configure(calls: seq<Call>, ghost p: Plan)
      requires Denotes(p) && WellTyped(p) && Fits(table, calls)
      modifies this, ctx
      ensures Denotes(Configured(p, calls)) && fresh(Repr - old(Repr))
      decreases calls, 0
    {
      var i := 0;
      while i < |calls|
        invariant 0 <= i <= |calls|
        invariant Denotes(Configured(p, calls[..i])) && fresh(Repr - old(Repr))
      {
        ghost var q := Configured(p, calls[..i]);
        assert calls[..i + 1][..i] == calls[..i];
        assert [calls[i]][0] == calls[i];
        Apply(calls[i], q);
        i := i + 1;
      }
      assert calls[..i] == calls;
    }

    /** Copies of the sub-builders: the same edges, the same plans but for locks, nothing shared. */
    ghost predicate Copied(copies: seq<Query?>, below: set<object>, p: Plan, n: nat)
      requires n <= |p.subs|
      reads below
    {
      && |copies| == n
      && (forall j | 0 <= j < n :: copies[j] == null <==> p.subs[j].None?)
      && (forall j | 0 <= j < n && copies[j] != null ::
            && copies[j] in below && copies[j].Repr <= below && copies[j].table == p.subs[j].value.table
            && copies[j] in copies[j].Repr && copies[j].Denotes(Unlocked(p.subs[j].value)))
      && (forall i, j | 0 <= i < j < n && copies[i] != null && copies[j] != null :: copies[i].Repr !! copies[j].Repr)
    }

    lemma CopiedOneMore(copies: seq<Query?>, below: set<object>, p: Plan, n: nat, copy: Query?, more: set<object>)
      requires n < |p.subs| && Copied(copies, below, p, n) && below !! more
      requires copy == null <==> p.subs[n].None?
      requires copy != null ==>
        && copy in more && copy.Repr == more && copy.table == p.subs[n].value.table
        && copy.Denotes(Unlocked(p.subs[n].value))
      ensures Copied(copies + [copy], below + more, p, n + 1)
    {
    }

    method CloneAt(k: nat, ghost p: Plan) returns (copy: Query?, ghost more: set<object>)
      requires Denotes(p) && k < |eager|
      ensures fresh(more) && (copy == null <==> p.subs[k].None?)
      ensures copy != null ==>
        && copy in more && copy.Repr == more && copy.table == p.subs[k].value.table
        && copy.Denotes(Unlocked(p.subs[k].value))
      decreases p, 0
    {
      copy, more := null, {};
      if eager[k] != null {
        assert SubDenotes(eager[k], p.subs[k].value);
        copy := eager[k].Clone(p.subs[k].value);
        more := copy.Repr;
      }
    }

    method CloneBelow(ghost p: Plan) returns (copies: seq<Query?>, ghost below: set<object>)
      requires Denotes(p)
      ensures fresh(below) && Copied(copies, below, p, |p.subs|)
      decreases p, 1
    {
      copies, below := [], {};
      var k := 0;
      while k < |eager|
        invariant 0 <= k <= |eager| && fresh(below) && Copied(copies, below, p, k)
      {
        var copy: Query?;
        ghost var more;
        copy, more := CloneAt(k, p);
        CopiedOneMore(copies, below, p, k, copy, more);
        copies, below := copies + [copy], below + more;
        k := k + 1;
      }
    }

    /** A builder of its own for every builder of the tree; nothing that existed before is written. */
    method Clone(ghost p: Plan) returns (c: Query)
      requires Denotes(p)
      ensures fresh(c.Repr) && c in c.Repr && c.table == table && c.Denotes(Unlocked(p))
      decreases p, 2
    {
      TreeWellTyped(p);
      ghost var below;
      var copies;
      copies, below := CloneBelow(p);
      var context := ctx.Clone();
      c := new Query.Make(table, context, order, inters, preds, joins, copies, below);
    }

    /** The plan after the traversers among the first n interceptors. */
    static ghost function Traversed(p: Plan, n: nat): Plan
      requires n <= |p.inters|
    {
      p.(preds := p.preds + TraverserPreds(p.inters[..n]))
    }

    static lemma TraversedOne(p: Plan, i: nat)
      requires i < |p.inters|
      ensures Traversed(p, i + 1) ==
              Traversed(p, i).(preds := Traversed(p, i).preds +
                  if p.inters[i].Traverser? then [p.inters[i].pred] else [])
    {
      assert p.inters[..i + 1][..i] == p.inters[..i];
    }

    /** Interceptor n is the first that is not initialized. */
    static ghost predicate StopsAt(p: Plan, n: nat) {
      n < |p.inters| && p.inters[n].Uninitialized? && forall j | 0 <= j < n :: !p.inters[j].Uninitialized?
    }

    method Intercept(i: nat, ghost p: Plan)
      requires i < |p.inters| && Denotes(Traversed(p, i))
      modifies this`preds
      ensures Denotes(Traversed(p, i + 1))
    {
      TraversedOne(p, i);
      if inters[i].Traverser? {
        Where([inters[i].pred], Traversed(p, i));
      } else {
        assert Traversed(p, i + 1) == Traversed(p, i);
      }
    }

    /** The traversers, in order; the first interceptor that is not initialized ends the loop, with those before it
        applied. */
    method Traverse(ghost p: Plan) returns (err: Option<Error>, ghost p': Plan)
      requires Denotes(p)
      modifies this`preds
      ensures Denotes(p') && p' == p.(preds := p'.preds)
      ensures err.None? <==> forall j | 0 <= j < |p.inters| :: !p.inters[j].Uninitialized?
      ensures err.None? ==> p' == Prepared(p)
      ensures err.Some? ==> exists n: nat | n <= |p.inters| ::
                StopsAt(p, n) && p'.preds == p.preds + TraverserPreds(p.inters[..n])
    {
      assert Traversed(p, 0) == p;
      var i := 0;
      while i < |inters|
        invariant 0 <= i <= |inters|
        invariant Denotes(Traversed(p, i))
        invariant forall j | 0 <= j < i :: !p.inters[j].Uninitialized?
      {
        if inters[i].Uninitialized? {
          assert StopsAt(p, i);
          return Some(UninitializedInterceptor), Traversed(p, i);
        }
        Intercept(i, p);
        i := i + 1;
      }
      assert p.inters[..i] == p.inters;
      return None, Traversed(p, i);
    }

    method CheckFields() returns (err: Option<Error>)
      ensures err.None? <==> forall j | 0 <= j < |ctx.fields| :: ValidColumn(table, ctx.fields[j])
    {
      var i := 0;
      while i < |ctx.fields|
        invariant 0 <= i <= |ctx.fields|
        invariant forall j | 0 <= j < i :: ValidColumn(table, ctx.fields[j])
      {
        if !ValidColumn(table, ctx.fields[i]) {
          return Some(InvalidField(ctx.fields[i]));
        }
        i := i + 1;
      }
      err := None;
    }

    /** The validation and traversal step of every run; on an error some traversers may already have run. */
    method PrepareQuery(ghost p: Plan) returns (err: Option<Error>, ghost p': Plan)
      requires Denotes(p)
      modifies this`preds
      ensures Denotes(p') && p' == p.(preds := p'.preds)
      ensures err.None? <==> PrepareOk(p)
      ensures err.None? ==> p' == Prepared(p)
    {
      err, p' := Traverse(p);
      if err.None? {
        err := CheckFields();
      }
    }
  }
}
