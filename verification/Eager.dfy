/**
 What running a builder means: `Eval` is the batched load the code performs, `AfterRun` what it leaves in the
 builders, and `Naive` the per-node lookup that eager loading stands for.
 */
module Eager {
  import opened Wrappers
  import opened Schema
  import opened Plan

  /** A loaded node as a tree: its entity, its loadedTypes and the value of every edge. */
  datatype Val = Val(ent: Entity, loaded: seq<bool>, edges: seq<Edge>)
  datatype Edge = One(node: Option<Val>) | Many(nodes: seq<Val>)

  function EmptyEdge(s: Shape): Edge {
    if s.M2O? then One(None) else Many([])
  }

  // ---------------------------------------------------------------- the keys of a batch

  function IDs(es: seq<Entity>): (ids: seq<int>)
    ensures |ids| == |es| && forall i | 0 <= i < |es| :: ids[i] == es[i].id
  {
    seq(|es|, i requires 0 <= i < |es| => es[i].id)
  }

  /** The foreign keys of the nodes in order of first occurrence, each once, nil ones left out. */
  function DistinctKeys(es: seq<Entity>, fk: ForeignKey): seq<int> {
    if es == [] then []
    else
      var before, k := DistinctKeys(es[..|es| - 1], fk), KeyOf(es[|es| - 1], fk);
      if k.None? || k.value in before then before else before + [k.value]
  }

  function BatchKeys(s: Shape, es: seq<Entity>): seq<int> {
    match s
    case M2O(fk) => DistinctKeys(es, fk)
    case _ => IDs(es)
  }

  /** The neighbour builder after the loader has narrowed it to a batch of keys. */
  function Narrow(p: Plan, s: Shape, keys: seq<int>): Plan {
    match s
    case M2M => p.(joins := p.joins + [keys])
    case M2O(_) => p.(preds := p.preds + [IDIn(keys)])
    case O2M(fk) => p.(fields := if p.fields == [] then [] else AddOnce(p.fields, Ref(fk)),
                       preds := p.preds + [RefIn(fk, keys)])
  }

  function TraverserPreds(inters: seq<Interceptor>): seq<Pred> {
    if inters == [] then []
    else TraverserPreds(inters[..|inters| - 1]) +
         (if inters[|inters| - 1].Traverser? then [inters[|inters| - 1].pred] else [])
  }

  /** The builder after prepareQuery: every traverser has appended its predicate. */
  function Prepared(p: Plan): (q: Plan)
    ensures WellTyped(p) ==> WellTyped(q)
  {
    p.(preds := p.preds + TraverserPreds(p.inters))
  }

  ghost predicate PrepareOk(p: Plan) {
    && (forall i | 0 <= i < |p.inters| :: !p.inters[i].Uninitialized?)
    && (forall i | 0 <= i < |p.fields| :: ValidColumn(p.table, p.fields[i]))
  }

  lemma PreparedHeight(p: Plan)
    ensures Height(Prepared(p)) == Height(p)
    ensures WellTyped(p) ==> WellTyped(Prepared(p))
  {
    HeightEq(p, Prepared(p));
  }

  lemma NarrowHeight(p: Plan, s: Shape, keys: seq<int>)
    ensures Height(Narrow(p, s, keys)) == Height(p)
    ensures WellTyped(p) ==> WellTyped(Narrow(p, s, keys))
  {
    HeightEq(p, Narrow(p, s, keys));
  }

  /** The neighbour builder as its statement is sent: narrowed to the batch, then prepared. */
  ghost function Sent(p: Plan, s: Shape, keys: seq<int>): (q: Plan)
    requires WellTyped(p)
    ensures WellTyped(q) && Height(q) == Height(p) && q.table == p.table
  {
    NarrowHeight(p, s, keys);
    PreparedHeight(Narrow(p, s, keys));
    Prepared(Narrow(p, s, keys))
  }

  // ---------------------------------------------------------------- redistribution

  predicate Linked(hits: seq<Hit>, owner: int, id: int) {
    exists h | h in hits :: h.owner == owner && h.row.id == id
  }

  /** Neighbour n belongs on the edge of node e. */
  predicate Wants(s: Shape, hits: seq<Hit>, e: Entity, n: Entity) {
    match s
    case M2M => Linked(hits, e.id, n.id)
    case M2O(fk) => KeyOf(e, fk) == Some(n.id)
    case O2M(fk) => KeyOf(n, fk) == Some(e.id)
  }

  /** The edge of node e once the neighbours vs of the whole batch are back: a slice collects, in order, every
      neighbour that belongs there; a pointer is overwritten by each. `hits` are the rows of a join. */
  function Resolve(s: Shape, vs: seq<Val>, hits: seq<Hit>, e: Entity): (r: Edge)
    ensures r.One? <==> s.M2O?
  {
    if vs == [] then EmptyEdge(s)
    else
      var before, last := Resolve(s, vs[..|vs| - 1], hits, e), vs[|vs| - 1];
      if !Wants(s, hits, e, last.ent) then before
      else if s.M2O? then One(Some(last))
      else Many(before.nodes + [last])
  }

  lemma {:induction false} ResolveHits(s: Shape, vs: seq<Val>, hits: seq<Hit>, links: seq<Hit>, e: Entity)
    requires !s.M2M?
    ensures Resolve(s, vs, hits, e) == Resolve(s, vs, links, e)
  {
    if vs != [] { ResolveHits(s, vs[..|vs| - 1], hits, links, e); }
  }

  // ---------------------------------------------------------------- batched evaluation

  /** The builder of edge k as it is queried for the batch `ents`. */
  ghost function Batch(p: Plan, ents: seq<Entity>, k: nat): (q: Plan)
    requires WellTyped(p) && k < |p.subs| && p.subs[k].Some?
    ensures WellTyped(q) && Height(q) < Height(p) && q.table == Edges(p.table)[k].target
  {
    var s := Edges(p.table)[k].shape;
    NarrowHeight(p.subs[k].value, s, BatchKeys(s, ents));
    Narrow(p.subs[k].value, s, BatchKeys(s, ents))
  }

  /** The nodes a builder returns and everything loaded below them: one statement per loaded edge and level. */
  ghost function Eval(db: Database, p: Plan): (vs: seq<Val>)
    requires WellTyped(p)
    decreases Height(p), 1
  {
    PreparedHeight(p);
    Load(db, Prepared(p), Entities(db, Prepared(p)))
  }

  /** The nodes of `ents` with every loaded edge of p resolved in one batch. */
  ghost function Load(db: Database, p: Plan, ents: seq<Entity>): (vs: seq<Val>)
    requires WellTyped(p)
    ensures |vs| == |ents|
    ensures forall i | 0 <= i < |vs| ::
              vs[i].ent == ents[i] && vs[i].loaded == LoadedFlags(p) && |vs[i].edges| == |p.subs|
    decreases Height(p), 0, 1
  {
    seq(|ents|, i requires 0 <= i < |ents| =>
      Val(ents[i], LoadedFlags(p), seq(|p.subs|, k requires 0 <= k < |p.subs| => LoadEdge(db, p, ents, i, k))))
  }

  /** Edge k of the i-th node of a batch. */
  ghost function LoadEdge(db: Database, p: Plan, ents: seq<Entity>, i: nat, k: nat): Edge
    requires WellTyped(p) && i < |ents| && k < |p.subs|
    decreases Height(p), 0, 0
  {
    var s := Edges(p.table)[k].shape;
    if p.subs[k].None? then EmptyEdge(s)
    else Resolve(s, Eval(db, Batch(p, ents, k)), Hits(db, RequestOf(Prepared(Batch(p, ents, k)))), ents[i])
  }

  /** A loader returns without querying when no node has a foreign key. */
  ghost predicate Queries(p: Plan, ents: seq<Entity>, k: nat)
    requires WellTyped(p) && k < |p.subs|
  {
    && p.subs[k].Some?
    && ents != []
    && (Edges(p.table)[k].shape.M2O? ==> BatchKeys(Edges(p.table)[k].shape, ents) != [])
  }

  /** The builder tree after one run: prepared, and narrowed wherever a neighbour query was sent. */
  ghost function AfterRun(db: Database, p: Plan): (q: Plan)
    requires WellTyped(p)
    ensures q.table == p.table && WellTyped(q) && |q.subs| == |p.subs|
    decreases Height(p), 1
  {
    PreparedHeight(p);
    AfterLoad(db, Prepared(p), Entities(db, Prepared(p)), |p.subs|)
  }

  /** The prepared builder p after the loaders of its first n edges ran on the batch `ents`. */
  ghost function AfterLoad(db: Database, p: Plan, ents: seq<Entity>, n: nat): (q: Plan)
    requires WellTyped(p) && n <= |p.subs|
    ensures q == p.(subs := q.subs) && |q.subs| == |p.subs| && WellTyped(q)
    ensures forall k | 0 <= k < |p.subs| :: q.subs[k] == if k < n then AfterEdge(db, p, ents, k) else p.subs[k]
    decreases Height(p), 0, 1
  {
    p.(subs := seq(|p.subs|, k requires 0 <= k < |p.subs| => if k < n then AfterEdge(db, p, ents, k) else p.subs[k]))
  }

  ghost function AfterEdge(db: Database, p: Plan, ents: seq<Entity>, k: nat): (q: Option<Plan>)
    requires WellTyped(p) && k < |p.subs|
    ensures q.Some? <==> p.subs[k].Some?
    ensures q.Some? ==> q.value.table == Edges(p.table)[k].target && WellTyped(q.value)
    decreases Height(p), 0, 0
  {
    if Queries(p, ents, k) then Some(AfterRun(db, Batch(p, ents, k))) else p.subs[k]
  }

  /** The rows of a statement can be assigned. The many-to-many loader reads the group's id from the second column; once
      the builder has been joined twice that is the account of the first join, which a group scans as an unknown column,
      and the first row ends the program. */
  ghost predicate Reads(db: Database, q: Plan) {
    |q.joins| <= 1 || Hits(db, RequestOf(q)) == []
  }

  /** A run ends without an error: every builder that is reached prepares, and its rows can be assigned. */
  ghost predicate Passes(db: Database, p: Plan)
    requires WellTyped(p)
    decreases Height(p), 1
  {
    PreparedHeight(p);
    PrepareOk(p) && Reads(db, Prepared(p)) && PassesAll(db, Prepared(p), Entities(db, Prepared(p)))
  }

  ghost predicate PassesUpTo(db: Database, p: Plan, ents: seq<Entity>, n: nat)
    requires WellTyped(p) && n <= |p.subs|
    decreases Height(p), 0, 1
  {
    forall k | 0 <= k < n :: PassesEdge(db, p, ents, k)
  }

  ghost predicate PassesAll(db: Database, p: Plan, ents: seq<Entity>)
    requires WellTyped(p)
    decreases Height(p), 0, 2
  {
    PassesUpTo(db, p, ents, |p.subs|)
  }

  ghost predicate PassesEdge(db: Database, p: Plan, ents: seq<Entity>, k: nat)
    requires WellTyped(p) && k < |p.subs|
    decreases Height(p), 0, 0
  {
    Queries(p, ents, k) ==> Passes(db, Batch(p, ents, k))
  }

  // ---------------------------------------------------------------- per-node evaluation

  /** The nodes a builder returns, each edge looked up with a query of its own for the one node. */
  ghost function Naive(db: Database, p: Plan): (vs: seq<Val>)
    requires WellTyped(p)
    decreases Height(p), 1
  {
    PreparedHeight(p);
    var q := Prepared(p);
    var ents := Entities(db, q);
    seq(|ents|, i requires 0 <= i < |ents| => LookUp(db, q, ents[i]))
  }

  ghost function LookUp(db: Database, p: Plan, e: Entity): (v: Val)
    requires WellTyped(p)
    decreases Height(p), 0, 1
  {
    Val(e, LoadedFlags(p), seq(|p.subs|, k requires 0 <= k < |p.subs| => LookUpEdge(db, p, e, k)))
  }

  ghost function LookUpEdge(db: Database, p: Plan, e: Entity, k: nat): Edge
    requires WellTyped(p) && k < |p.subs|
    decreases Height(p), 0, 0
  {
    var s := Edges(p.table)[k].shape;
    if p.subs[k].None? then EmptyEdge(s)
    else
      var vs := Naive(db, Batch(p, [e], k));
      match s
      case M2O(fk) => One(if KeyOf(e, fk).None? || vs == [] then None else Some(vs[0]))
      case _ => Many(vs)
  }
}
