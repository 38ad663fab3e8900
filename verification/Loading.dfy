/**
 Running a builder: one statement for its own rows, then one per loaded edge for all of them at once, the
 neighbours handed out through hash maps (backend/ent/account_query.go:550-844, :866-880,
 backend/ent/accountgroup_query.go:334-436).
 */
module Loading {
  import opened Wrappers
  import opened Schema
  import opened Plan
  import opened Eager
  import opened Builders
  import opened Selection

  // ---------------------------------------------------------------- one statement

  /** The first loop of querySpec: the id first, then the selected fields without it. */
  method IDFirst(fields: seq<Column>) returns (columns: seq<Column>)
    ensures columns == [ID] + Without(fields, ID)
  {
    columns := [ID];
    var i := 0;
    while i < |fields|
      invariant 0 <= i <= |fields|
      invariant columns == [ID] + Without(fields[..i], ID)
    {
      assert fields[..i + 1][..i] == fields[..i];
      if fields[i] != ID {
        columns := columns + [fields[i]];
      }
      i := i + 1;
    }
    assert fields[..i] == fields;
  }

  /** The rest of querySpec: the foreign key of each edge that is loaded and needs one, once. */
  method FetchKeys(t: Table, selected: seq<Column>, loaded: seq<bool>) returns (columns: seq<Column>)
    requires |loaded| == |Edges(t)|
    ensures columns == AddKeys(t, selected, loaded, |loaded|)
  {
    columns := selected;
    var k := 0;
    while k < |loaded|
      invariant 0 <= k <= |loaded|
      invariant columns == AddKeys(t, selected, loaded, k)
    {
      var e := Edges(t)[k];
      if loaded[k] && e.shape.M2O? {
        columns := if Ref(e.shape.fk) in columns then columns else columns + [Ref(e.shape.fk)];
      }
      k := k + 1;
    }
  }

  /** querySpec: the statement, the columns it fetches and the loadedTypes flags. */
  method QuerySpec(query: Query, ghost p: Plan) returns (q: Request, cols: Option<seq<Column>>, loaded: seq<bool>)
    requires query.Denotes(p) && WellTyped(p)
    ensures q == RequestOf(p) && loaded == LoadedFlags(p)
    ensures cols == FetchedColumns(p.table, p.fields, LoadedFlags(p))
  {
    q := Request(query.table, query.preds, query.order, query.ctx.limit.GetOr(0), query.ctx.offset.GetOr(0),
        query.joins);
    loaded := seq(|query.eager|, k requires 0 <= k < |query.eager| reads query => query.eager[k] != null);
    assert loaded == LoadedFlags(p);
    if query.ctx.fields == [] {
      return q, None, loaded;
    }
    var columns := query.ctx.fields;
    if HasID(query.table) {
      columns := IDFirst(columns);
    }
    columns := FetchKeys(query.table, columns, loaded);
    cols := Some(columns);
  }

  /** Every hit was joined to an indexed node. */
  ghost predicate Known(hits: seq<Hit>, byID: map<int, Node>) {
    forall h | h in hits :: h.owner in byID
  }

  /** The links a many-to-many statement reports, as the loader collects them: per node id, the accounts joined to
      it. */
  ghost function LinkMap(hits: seq<Hit>, byID: map<int, Node>): (m: map<int, set<Node>>)
    requires Known(hits, byID)
    ensures forall id :: id in m <==> Seen(hits, id)
  {
    if hits == [] then map[]
    else
      var front, h := hits[..|hits| - 1], hits[|hits| - 1];
      var m := LinkMap(front, byID);
      assert hits == front + [h];
      AddLink(m, h.row.id, byID[h.owner])
  }

  function AddLink(m: map<int, set<Node>>, id: int, n: Node): map<int, set<Node>> {
    m[id := (if id in m then m[id] else {}) + {n}]
  }

  function EmptySlots(t: Table): (ss: seq<Slot>)
    ensures |ss| == |Edges(t)|
    ensures forall k | 0 <= k < |ss| :: ss[k] == if Edges(t)[k].shape.M2O? then Pointer(null) else Slice([])
  {
    seq(|Edges(t)|, k requires 0 <= k < |Edges(t)| => if Edges(t)[k].shape.M2O? then Pointer(null) else Slice([]))
  }

  ghost predicate Distinct(nodes: seq<Node>) {
    forall i, j | 0 <= i < j < |nodes| :: nodes[i] != nodes[j]
  }

  ghost predicate Carry(nodes: seq<Node>, ents: seq<Entity>) {
    |nodes| == |ents| && Distinct(nodes) && forall i | 0 <= i < |nodes| :: nodes[i].ent == ents[i]
  }

  function RowsSoFar(joined: bool, hits: seq<Hit>): seq<Row> {
    if joined then FirstSeen(hits) else RowsOf(hits)
  }

  lemma RowsStep(joined: bool, hits: seq<Hit>, h: Hit)
    ensures joined && Seen(hits, h.row.id) ==> RowsSoFar(joined, hits + [h]) == RowsSoFar(joined, hits)
    ensures !joined || !Seen(hits, h.row.id) ==> RowsSoFar(joined, hits + [h]) == RowsSoFar(joined, hits) + [h.row]
  {
    assert (hits + [h])[..|hits|] == hits;
  }

  lemma LinkStep(hits: seq<Hit>, byID: map<int, Node>, h: Hit)
    requires Known(hits + [h], byID)
    ensures Known(hits, byID) && h.owner in byID
    ensures LinkMap(hits + [h], byID) == AddLink(LinkMap(hits, byID), h.row.id, byID[h.owner])
  {
    assert (hits + [h])[..|hits|] == hits;
    forall g | g in hits ensures g.owner in byID { assert g in hits + [h]; }
    assert h in hits + [h];
  }

  /** One new node per row, decoded, with its flags set and its edges empty. */
  ghost predicate Built(nodes: seq<Node>, t: Table, cols: Option<seq<Column>>, loaded: seq<bool>, rows: seq<Row>)
    reads nodes
  {
    && |nodes| == |rows| && Distinct(nodes)
    && forall j | 0 <= j < |nodes| ::
         nodes[j].ent == Decode(t, cols, rows[j]) && nodes[j].loaded == loaded && nodes[j].edges == EmptySlots(t)
  }

  lemma BuiltCarry(nodes: seq<Node>, t: Table, cols: Option<seq<Column>>, loaded: seq<bool>, rows: seq<Row>)
    requires Built(nodes, t, cols, loaded, rows)
    ensures Carry(nodes, DecodeAll(t, cols, rows))
    ensures forall i | 0 <= i < |nodes| :: nodes[i].loaded == loaded && nodes[i].edges == EmptySlots(t)
  {
  }

  method AddNode(nodes: seq<Node>, t: Table, cols: Option<seq<Column>>, loaded: seq<bool>, row: Row,
                 ghost rows: seq<Row>)
    returns (more: seq<Node>)
    requires Built(nodes, t, cols, loaded, rows)
    ensures nodes <= more && |more| == |nodes| + 1 && fresh(more[|nodes|])
    ensures Built(more, t, cols, loaded, rows + [row])
  {
    var node := new Node(Decode(t, cols, row), loaded, EmptySlots(t));
    more := nodes + [node];
  }

  /** Assign, for the row h after the rows `hits`: a joined row makes a node only if its id is new. */
  method AssignRow(t: Table, cols: Option<seq<Column>>, loaded: seq<bool>, h: Hit, joined: bool, byID: map<int, Node>,
                   nodes: seq<Node>, nids: map<int, set<Node>>, ghost hits: seq<Hit>)
    returns (nodes': seq<Node>, nids': map<int, set<Node>>)
    requires Built(nodes, t, cols, loaded, RowsSoFar(joined, hits))
    requires joined ==> Known(hits, byID) && Known(hits + [h], byID)
    requires joined ==> nids == LinkMap(hits, byID)
    ensures nodes <= nodes' && forall i | |nodes| <= i < |nodes'| :: fresh(nodes'[i])
    ensures Built(nodes', t, cols, loaded, RowsSoFar(joined, hits + [h]))
    ensures joined ==> nids' == LinkMap(hits + [h], byID)
  {
    nodes', nids' := nodes, nids;
    RowsStep(joined, hits, h);
    if !joined || h.row.id !in nids {
      nodes' := AddNode(nodes, t, cols, loaded, h.row, RowsSoFar(joined, hits));
    }
    if joined {
      LinkStep(hits, byID, h);
      nids' := AddLink(nids, h.row.id, byID[h.owner]);
    }
  }

  /** Assign, called once per returned row, in order. */
  method AssignAll(t: Table, cols: Option<seq<Column>>, loaded: seq<bool>, hits: seq<Hit>, joined: bool,
                   byID: map<int, Node>)
    returns (nodes: seq<Node>, nids: map<int, set<Node>>)
    requires joined ==> Known(hits, byID)
    ensures fresh(nodes) && Carry(nodes, DecodeAll(t, cols, RowsSoFar(joined, hits)))
    ensures forall i | 0 <= i < |nodes| :: nodes[i].loaded == loaded && nodes[i].edges == EmptySlots(t)
    ensures joined ==> nids == LinkMap(hits, byID)
  {
    nodes, nids := [], map[];
    assert hits[..0] == [];
    var i := 0;
    while i < |hits|
      invariant 0 <= i <= |hits| && fresh(nodes)
      invariant Built(nodes, t, cols, loaded, RowsSoFar(joined, hits[..i]))
      invariant joined ==> nids == LinkMap(hits[..i], byID)
    {
      assert hits[..i + 1] == hits[..i] + [hits[i]];
      nodes, nids := AssignRow(t, cols, loaded, hits[i], joined, byID, nodes, nids, hits[..i]);
      i := i + 1;
    }
    assert hits[..i] == hits;
    BuiltCarry(nodes, t, cols, loaded, RowsSoFar(joined, hits));
  }

  /** One statement and its rows. The assignment of a join expects the group's id in the second column, which is the
      account of an earlier join if there is one: it fails on the first row. */
  method QueryNodes(query: Query, db: Database, byID: map<int, Node>, ghost p: Plan)
    returns (err: Option<Error>, nodes: seq<Node>, nids: map<int, set<Node>>)
    requires query.Denotes(p) && WellTyped(p)
    requires p.joins != [] ==> Known(Hits(db, RequestOf(p)), byID)
    ensures err.None? <==> Reads(db, p)
    ensures err.None? ==> fresh(nodes) && Carry(nodes, Entities(db, p))
    ensures err.None? ==>
              forall i | 0 <= i < |nodes| :: nodes[i].loaded == LoadedFlags(p) && nodes[i].edges == EmptySlots(p.table)
    ensures err.None? && p.joins != [] ==> nids == LinkMap(Hits(db, RequestOf(p)), byID)
  {
    var q, cols, loaded := QuerySpec(query, p);
    var rows := Hits(db, q);
    if |query.joins| > 1 && rows != [] {
      return Some(BadColumn), [], map[];
    }
    err := None;
    nodes, nids := AssignAll(query.table, cols, loaded, rows, query.joins != [], byID);
  }

  // ---------------------------------------------------------------- handing out the neighbours

  function Put(s: Slot, n: Node): Slot {
    if s.Slice? then Slice(s.nodes + [n]) else Pointer(n)
  }

  /** The slots of a batch after neighbour n has been handed to every node that wants it. */
  ghost function Step(s: Shape, hits: seq<Hit>, nodes: seq<Node>, n: Node, was: seq<Slot>): (now: seq<Slot>)
    requires |was| == |nodes|
    ensures |now| == |was|
  {
    seq(|was|, i requires 0 <= i < |was| => if Wants(s, hits, nodes[i].ent, n.ent) then Put(was[i], n) else was[i])
  }

  ghost function Blank(s: Shape, n: nat): seq<Slot> {
    seq(n, i => if s.M2O? then Pointer(null) else Slice([]))
  }

  /** The slots of a batch after the first n neighbours have been handed out. */
  ghost function After(s: Shape, hits: seq<Hit>, nodes: seq<Node>, ns: seq<Node>, n: nat): (now: seq<Slot>)
    requires n <= |ns|
    ensures |now| == |nodes|
  {
    if n == 0 then Blank(s, |nodes|) else Step(s, hits, nodes, ns[n - 1], After(s, hits, nodes, ns, n - 1))
  }

  /** A slot keeps its kind. */
  lemma {:induction false} AfterKind(s: Shape, hits: seq<Hit>, nodes: seq<Node>, ns: seq<Node>, n: nat)
    requires n <= |ns|
    ensures forall i | 0 <= i < |nodes| :: After(s, hits, nodes, ns, n)[i].Slice? <==> !s.M2O?
  {
    if n != 0 { AfterKind(s, hits, nodes, ns, n - 1); }
  }

  /** Handing out the neighbours one by one gives each node the edge that Resolve says. */
  lemma {:induction false} AfterShows(s: Shape, hits: seq<Hit>, nodes: seq<Node>, ns: seq<Node>, vs: seq<Val>, n: nat,
                                      i: nat, S: set<object>)
    requires n <= |ns| && i < |nodes| && AllShow(ns, vs, S)
    ensures SlotShows(After(s, hits, nodes, ns, n)[i], Resolve(s, vs[..n], hits, nodes[i].ent), S)
  {
    if n != 0 {
      assert vs[..n][..n - 1] == vs[..n - 1];
      AfterShows(s, hits, nodes, ns, vs, n - 1, i, S);
      AfterKind(s, hits, nodes, ns, n - 1);
    }
  }

  /** Every node has the edges it had in `base`, except that slot k of the i-th is now now[i]. */
  ghost predicate Slots(nodes: seq<Node>, base: seq<seq<Slot>>, k: nat, now: seq<Slot>)
    reads nodes
  {
    && |nodes| == |base| == |now|
    && forall i | 0 <= i < |nodes| :: k < |base[i]| && nodes[i].edges == base[i][k := now[i]]
  }

  /** assign for a slice edge: append n to the edge of node o. */
  method Append(o: Node, n: Node, k: nat, ghost nodes: seq<Node>, ghost base: seq<seq<Slot>>, ghost was: seq<Slot>)
    returns (ghost now: seq<Slot>)
    requires o in nodes && Slots(nodes, base, k, was) && forall i | 0 <= i < |was| :: was[i].Slice?
    modifies nodes
    ensures Slots(nodes, base, k, now)
    ensures forall i | 0 <= i < |now| :: now[i] == if nodes[i] == o then Slice(was[i].nodes + [n]) else was[i]
  {
    now := seq(|was|, i requires 0 <= i < |was| && i < |nodes| =>
      if nodes[i] == o then Slice(was[i].nodes + [n]) else was[i]);
    o.edges := o.edges[k := Slice(o.edges[k].nodes + [n])];
  }

  /** assign for a pointer edge, for each node of `owners`. */
  method PointAll(owners: seq<Node>, n: Node, k: nat, ghost nodes: seq<Node>, ghost base: seq<seq<Slot>>,
                  ghost was: seq<Slot>)
    returns (ghost now: seq<Slot>)
    requires Slots(nodes, base, k, was) && forall o | o in owners :: o in nodes
    modifies nodes
    ensures Slots(nodes, base, k, now)
    ensures forall i | 0 <= i < |now| :: now[i] == if nodes[i] in owners then Pointer(n) else was[i]
  {
    now := was;
    var j := 0;
    while j < |owners|
      invariant 0 <= j <= |owners|
      invariant Slots(nodes, base, k, now)
      invariant forall i | 0 <= i < |now| :: now[i] == if nodes[i] in owners[..j] then Pointer(n) else was[i]
    {
      var o := owners[j];
      assert o in owners;
      now := seq(|now|, i requires 0 <= i < |now| && i < |nodes| => if nodes[i] == o then Pointer(n) else now[i]);
      o.edges := o.edges[k := Pointer(n)];
      j := j + 1;
    }
    assert owners[..j] == owners;
  }

  /** assign for a slice edge, for each node of `owners`, visited in no particular order. */
  method AppendAll(owners: set<Node>, n: Node, k: nat, ghost nodes: seq<Node>, ghost base: seq<seq<Slot>>,
                   ghost was: seq<Slot>)
    returns (ghost now: seq<Slot>)
    requires Slots(nodes, base, k, was) && forall i | 0 <= i < |was| :: was[i].Slice?
    requires forall o | o in owners :: o in nodes
    modifies nodes
    ensures Slots(nodes, base, k, now)
    ensures forall i | 0 <= i < |now| :: now[i] == if nodes[i] in owners then Slice(was[i].nodes + [n]) else was[i]
  {
    var rest := owners;
    now := was;
    while rest != {}
      invariant rest <= owners && Slots(nodes, base, k, now)
      invariant forall i | 0 <= i < |now| ::
          now[i] == if nodes[i] in owners - rest then Slice(was[i].nodes + [n]) else was[i]
    {
      var o :| o in rest;
      now := Append(o, n, k, nodes, base, now);
      rest := rest - {o};
    }
  }

  // ---------------------------------------------------------------- one-to-many

  /** nodeids of a one-to-many loader and byID of the many-to-many one: ids to nodes, the first n nodes entered. */
  ghost function ByIDMap(nodes: seq<Node>, n: nat): map<int, Node>
    requires n <= |nodes|
  {
    if n == 0 then map[] else ByIDMap(nodes, n - 1)[nodes[n - 1].ent.id := nodes[n - 1]]
  }

  ghost predicate DistinctIDs(nodes: seq<Node>) {
    forall i, j | 0 <= i < j < |nodes| :: nodes[i].ent.id != nodes[j].ent.id
  }

  lemma {:induction false} ByIDMapAt(nodes: seq<Node>, n: nat, id: int)
    requires n <= |nodes| && DistinctIDs(nodes)
    ensures id in ByIDMap(nodes, n) <==> exists i :: 0 <= i < n && nodes[i].ent.id == id
    ensures id in ByIDMap(nodes, n) ==> ByIDMap(nodes, n)[id] in nodes[..n]
    ensures id in ByIDMap(nodes, n) ==>
              forall i | 0 <= i < n :: nodes[i] == ByIDMap(nodes, n)[id] <==> nodes[i].ent.id == id
  {
    if n != 0 {
      ByIDMapAt(nodes, n - 1, id);
      assert nodes[..n] == nodes[..n - 1] + [nodes[n - 1]];
    }
  }

  /** The foreign key of n names an indexed node. */
  ghost predicate Names(n: Node, fk: ForeignKey, nodeids: map<int, Node>) {
    KeyOf(n.ent, fk).Some? && KeyOf(n.ent, fk).value in nodeids
  }

  ghost predicate AllNamed(ns: seq<Node>, fk: ForeignKey, nodeids: map<int, Node>, n: nat)
    requires n <= |ns|
  {
    n == 0 || (AllNamed(ns, fk, nodeids, n - 1) && Names(ns[n - 1], fk, nodeids))
  }

  lemma {:induction false} AllNamedAt(ns: seq<Node>, fk: ForeignKey, nodeids: map<int, Node>, n: nat)
    requires n <= |ns|
    ensures AllNamed(ns, fk, nodeids, n) <==> forall j | 0 <= j < n :: Names(ns[j], fk, nodeids)
  {
    if n != 0 { AllNamedAt(ns, fk, nodeids, n - 1); }
  }

  /** Every indexed id is that of its node. */
  ghost predicate Indexed(nodes: seq<Node>, nodeids: map<int, Node>) {
    forall id {:trigger nodeids[id]} | id in nodeids :: HasIDOf(nodes, nodeids[id], id)
  }

  ghost predicate HasIDOf(nodes: seq<Node>, o: Node, id: int) {
    o in nodes && forall i | 0 <= i < |nodes| :: nodes[i] == o <==> nodes[i].ent.id == id
  }

  lemma ByIDMapIndexed(nodes: seq<Node>)
    requires DistinctIDs(nodes)
    ensures Indexed(nodes, ByIDMap(nodes, |nodes|))
  {
    var m := ByIDMap(nodes, |nodes|);
    assert nodes[..|nodes|] == nodes;
    forall id | id in m ensures HasIDOf(nodes, m[id], id) {
      ByIDMapAt(nodes, |nodes|, id);
    }
  }

  lemma NotAllNamed(ns: seq<Node>, fk: ForeignKey, nodeids: map<int, Node>, j: nat)
    requires j < |ns| && !Names(ns[j], fk, nodeids)
    ensures !AllNamed(ns, fk, nodeids, |ns|)
  {
    AllNamedAt(ns, fk, nodeids, |ns|);
  }

  /** One neighbour of a one-to-many edge goes to the node its foreign key names. */
  method AssignOwner(neighbors: seq<Node>, j: nat, nodeids: map<int, Node>, k: nat, s: Shape, ghost nodes: seq<Node>,
                     ghost base: seq<seq<Slot>>)
    returns (err: Option<Error>)
    requires s.O2M? && Indexed(nodes, nodeids) && j < |neighbors| && AllNamed(neighbors, s.fk, nodeids, j)
    requires Slots(nodes, base, k, After(s, [], nodes, neighbors, j))
    modifies nodes
    ensures if err.None? then AllNamed(neighbors, s.fk, nodeids, j + 1)
        else !AllNamed(neighbors, s.fk, nodeids, |neighbors|)
    ensures Slots(nodes, base, k, After(s, [], nodes, neighbors, if err.None? then j + 1 else j))
  {
    var n := neighbors[j];
    ghost var was := After(s, [], nodes, neighbors, j);
    var key := KeyOf(n.ent, s.fk);
    if key.None? {
      NotAllNamed(neighbors, s.fk, nodeids, j);
      return Some(ForeignKeyIsNil);
    }
    if key.value !in nodeids {
      NotAllNamed(neighbors, s.fk, nodeids, j);
      return Some(UnexpectedNode(key.value));
    }
    assert HasIDOf(nodes, nodeids[key.value], key.value);
    AfterKind(s, [], nodes, neighbors, j);
    ghost var now := Append(nodeids[key.value], n, k, nodes, base, was);
    assert now == Step(s, [], nodes, n, was);
    err := None;
  }

  /** The last loop of a one-to-many loader. */
  method AssignOwned(neighbors: seq<Node>, nodeids: map<int, Node>, k: nat, s: Shape, ghost nodes: seq<Node>,
                     ghost base: seq<seq<Slot>>)
    returns (err: Option<Error>, ghost now: seq<Slot>)
    requires Slots(nodes, base, k, Blank(s, |nodes|))
    requires s.O2M? && Indexed(nodes, nodeids)
    modifies nodes
    ensures Slots(nodes, base, k, now)
    ensures err.None? <==> AllNamed(neighbors, s.fk, nodeids, |neighbors|)
    ensures err.None? ==> now == After(s, [], nodes, neighbors, |neighbors|)
  {
    err := None;
    var j := 0;
    while j < |neighbors|
      invariant 0 <= j <= |neighbors| && err.None?
      invariant AllNamed(neighbors, s.fk, nodeids, j)
      invariant Slots(nodes, base, k, After(s, [], nodes, neighbors, j))
    {
      err := AssignOwner(neighbors, j, nodeids, k, s, nodes, base);
      if err.Some? {
        return err, After(s, [], nodes, neighbors, j);
      }
      j := j + 1;
    }
    now := After(s, [], nodes, neighbors, |neighbors|);
  }

  // ---------------------------------------------------------------- many-to-one

  /** nodeids of a many-to-one loader: foreign keys to the nodes that hold them, the first n nodes entered. */
  ghost function ByKeyMap(nodes: seq<Node>, fk: ForeignKey, n: nat): map<int, seq<Node>>
    requires n <= |nodes|
  {
    if n == 0 then map[]
    else
      var before, key := ByKeyMap(nodes, fk, n - 1), KeyOf(nodes[n - 1].ent, fk);
      if key.None? then before else AddOwner(before, key.value, nodes[n - 1])
  }

  function AddOwner(m: map<int, seq<Node>>, id: int, n: Node): map<int, seq<Node>> {
    m[id := (if id in m then m[id] else []) + [n]]
  }

  lemma {:induction false} ByKeyMapAt(nodes: seq<Node>, fk: ForeignKey, n: nat, id: int)
    requires n <= |nodes|
    ensures id in ByKeyMap(nodes, fk, n) <==> exists i :: 0 <= i < n && KeyOf(nodes[i].ent, fk) == Some(id)
    ensures id in ByKeyMap(nodes, fk, n) ==>
              forall i | 0 <= i < n && KeyOf(nodes[i].ent, fk) == Some(id) :: nodes[i] in ByKeyMap(nodes, fk, n)[id]
  {
    if n != 0 { ByKeyMapAt(nodes, fk, n - 1, id); }
  }

  lemma {:induction false} ByKeyMapOwners(nodes: seq<Node>, fk: ForeignKey, n: nat, id: int, o: Node)
    requires n <= |nodes| && id in ByKeyMap(nodes, fk, n) && o in ByKeyMap(nodes, fk, n)[id]
    ensures o in nodes && KeyOf(o.ent, fk) == Some(id)
  {
    var before := ByKeyMap(nodes, fk, n - 1);
    if id in before && o in before[id] { ByKeyMapOwners(nodes, fk, n - 1, id, o); }
  }

  /** nodeids holds, per foreign key, exactly the nodes that have it. */
  lemma KeyHolders(nodes: seq<Node>, fk: ForeignKey)
    ensures HeldBy(nodes, fk, ByKeyMap(nodes, fk, |nodes|))
  {
    var m := ByKeyMap(nodes, fk, |nodes|);
    forall id | id in m ensures Holders(nodes, fk, m[id], id) {
      ByKeyMapAt(nodes, fk, |nodes|, id);
      forall o | o in m[id] ensures o in nodes && KeyOf(o.ent, fk) == Some(id) {
        ByKeyMapOwners(nodes, fk, |nodes|, id, o);
      }
    }
  }

  /** Every indexed key is that of its nodes. */
  ghost predicate HeldBy(nodes: seq<Node>, fk: ForeignKey, nodeids: map<int, seq<Node>>) {
    forall id {:trigger nodeids[id]} | id in nodeids :: Holders(nodes, fk, nodeids[id], id)
  }

  ghost predicate Holders(nodes: seq<Node>, fk: ForeignKey, os: seq<Node>, id: int) {
    && (forall o | o in os :: o in nodes)
    && forall i | 0 <= i < |nodes| :: nodes[i] in os <==> KeyOf(nodes[i].ent, fk) == Some(id)
  }

  ghost predicate AllIn(ns: seq<Node>, ids: set<int>, n: nat)
    requires n <= |ns|
  {
    n == 0 || (AllIn(ns, ids, n - 1) && ns[n - 1].ent.id in ids)
  }

  lemma {:induction false} AllInAt(ns: seq<Node>, ids: set<int>, n: nat)
    requires n <= |ns|
    ensures AllIn(ns, ids, n) <==> forall j | 0 <= j < n :: ns[j].ent.id in ids
  {
    if n != 0 { AllInAt(ns, ids, n - 1); }
  }

  lemma NotAllIn(ns: seq<Node>, ids: set<int>, j: nat)
    requires j < |ns| && ns[j].ent.id !in ids
    ensures !AllIn(ns, ids, |ns|)
  {
    AllInAt(ns, ids, |ns|);
  }

  /** One neighbour of a many-to-one edge goes to every node that holds its id. */
  method AssignHolders(neighbors: seq<Node>, j: nat, nodeids: map<int, seq<Node>>, k: nat, ghost s: Shape,
                       ghost nodes: seq<Node>, ghost base: seq<seq<Slot>>)
    returns (err: Option<Error>)
    requires s.M2O? && HeldBy(nodes, s.fk, nodeids) && j < |neighbors| && AllIn(neighbors, nodeids.Keys, j)
    requires Slots(nodes, base, k, After(s, [], nodes, neighbors, j))
    modifies nodes
    ensures if err.None? then AllIn(neighbors, nodeids.Keys, j + 1) else !AllIn(neighbors, nodeids.Keys, |neighbors|)
    ensures Slots(nodes, base, k, After(s, [], nodes, neighbors, if err.None? then j + 1 else j))
  {
    var n := neighbors[j];
    ghost var was := After(s, [], nodes, neighbors, j);
    if n.ent.id !in nodeids {
      NotAllIn(neighbors, nodeids.Keys, j);
      return Some(UnexpectedNode(n.ent.id));
    }
    assert Holders(nodes, s.fk, nodeids[n.ent.id], n.ent.id);
    AfterKind(s, [], nodes, neighbors, j);
    ghost var now := PointAll(nodeids[n.ent.id], n, k, nodes, base, was);
    assert now == Step(s, [], nodes, n, was);
    err := None;
  }

  /** The last loop of a many-to-one loader. */
  method AssignReferenced(neighbors: seq<Node>, nodeids: map<int, seq<Node>>, k: nat, ghost s: Shape,
                          ghost nodes: seq<Node>, ghost base: seq<seq<Slot>>)
    returns (err: Option<Error>, ghost now: seq<Slot>)
    requires Slots(nodes, base, k, Blank(s, |nodes|))
    requires s.M2O? && HeldBy(nodes, s.fk, nodeids)
    modifies nodes
    ensures Slots(nodes, base, k, now)
    ensures err.None? <==> AllIn(neighbors, nodeids.Keys, |neighbors|)
    ensures err.None? ==> now == After(s, [], nodes, neighbors, |neighbors|)
  {
    err := None;
    var j := 0;
    while j < |neighbors|
      invariant 0 <= j <= |neighbors| && err.None?
      invariant AllIn(neighbors, nodeids.Keys, j)
      invariant Slots(nodes, base, k, After(s, [], nodes, neighbors, j))
    {
      err := AssignHolders(neighbors, j, nodeids, k, s, nodes, base);
      if err.Some? {
        return err, After(s, [], nodes, neighbors, j);
      }
      j := j + 1;
    }
    now := After(s, [], nodes, neighbors, |neighbors|);
  }

  // ---------------------------------------------------------------- many-to-many

  /** The accounts collected for an id are nodes of the batch that some hit joined to it. */
  lemma {:induction false} LinkMapSound(hits: seq<Hit>, byID: map<int, Node>, id: int, n: Node)
    requires Known(hits, byID)
    requires id in LinkMap(hits, byID) && n in LinkMap(hits, byID)[id]
    ensures exists h | h in hits :: h.row.id == id && byID[h.owner] == n
  {
    var front, last := hits[..|hits| - 1], hits[|hits| - 1];
    assert hits == front + [last];
    assert last in hits;
    if Seen(front, id) && n in LinkMap(front, byID)[id] {
      LinkMapSound(front, byID, id, n);
      var h :| h in front && h.row.id == id && byID[h.owner] == n;
      assert h in hits;
    }
  }

  /** Every hit is collected. */
  lemma {:induction false} LinkMapComplete(hits: seq<Hit>, byID: map<int, Node>, h: Hit)
    requires Known(hits, byID) && h in hits
    ensures h.row.id in LinkMap(hits, byID) && byID[h.owner] in LinkMap(hits, byID)[h.row.id]
  {
    var front, last := hits[..|hits| - 1], hits[|hits| - 1];
    assert hits == front + [last];
    if h in front { LinkMapComplete(front, byID, h); }
  }

  /** nids holds, per neighbour id, exactly the nodes of the batch that are linked to it. */
  lemma LinkedNodes(hits: seq<Hit>, nodes: seq<Node>)
    requires DistinctIDs(nodes) && Known(hits, ByIDMap(nodes, |nodes|))
    ensures Collected(nodes, hits, LinkMap(hits, ByIDMap(nodes, |nodes|)))
  {
    var m := LinkMap(hits, ByIDMap(nodes, |nodes|));
    forall id | id in m ensures Owners(nodes, hits, m[id], id) {
      LinkedOwners(hits, nodes, id);
    }
  }

  lemma LinkedOwners(hits: seq<Hit>, nodes: seq<Node>, id: int)
    requires DistinctIDs(nodes) && Known(hits, ByIDMap(nodes, |nodes|)) && id in LinkMap(hits, ByIDMap(nodes, |nodes|))
    ensures Owners(nodes, hits, LinkMap(hits, ByIDMap(nodes, |nodes|))[id], id)
  {
    var byID := ByIDMap(nodes, |nodes|);
    var owners := LinkMap(hits, byID)[id];
    assert nodes[..|nodes|] == nodes;
    forall n | n in owners ensures n in nodes && Linked(hits, n.ent.id, id) {
      LinkMapSound(hits, byID, id, n);
      var h :| h in hits && h.row.id == id && byID[h.owner] == n;
      ByIDMapAt(nodes, |nodes|, h.owner);
    }
    forall i | 0 <= i < |nodes| && Linked(hits, nodes[i].ent.id, id) ensures nodes[i] in owners {
      var h :| h in hits && h.owner == nodes[i].ent.id && h.row.id == id;
      LinkMapComplete(hits, byID, h);
      ByIDMapAt(nodes, |nodes|, h.owner);
    }
  }

  /** Every collected id comes with the nodes that are linked to it. */
  ghost predicate Collected(nodes: seq<Node>, hits: seq<Hit>, nids: map<int, set<Node>>) {
    forall id {:trigger nids[id]} | id in nids :: Owners(nodes, hits, nids[id], id)
  }

  ghost predicate Owners(nodes: seq<Node>, hits: seq<Hit>, os: set<Node>, id: int) {
    && (forall o | o in os :: o in nodes)
    && forall i | 0 <= i < |nodes| :: nodes[i] in os <==> Linked(hits, nodes[i].ent.id, id)
  }

  /** One neighbour of a many-to-many edge goes to every node linked to it. */
  method AssignLinked(neighbors: seq<Node>, j: nat, nids: map<int, set<Node>>, k: nat, ghost hits: seq<Hit>,
                      ghost nodes: seq<Node>, ghost base: seq<seq<Slot>>)
    returns (err: Option<Error>)
    requires Collected(nodes, hits, nids) && j < |neighbors| && AllIn(neighbors, nids.Keys, j)
    requires Slots(nodes, base, k, After(M2M, hits, nodes, neighbors, j))
    modifies nodes
    ensures if err.None? then AllIn(neighbors, nids.Keys, j + 1) else !AllIn(neighbors, nids.Keys, |neighbors|)
    ensures err.None? ==> Slots(nodes, base, k, After(M2M, hits, nodes, neighbors, j + 1))
    ensures err.Some? ==> Slots(nodes, base, k, After(M2M, hits, nodes, neighbors, j))
  {
    var n := neighbors[j];
    ghost var was := After(M2M, hits, nodes, neighbors, j);
    if n.ent.id !in nids {
      NotAllIn(neighbors, nids.Keys, j);
      return Some(UnexpectedNode(n.ent.id));
    }
    assert Owners(nodes, hits, nids[n.ent.id], n.ent.id);
    AfterKind(M2M, hits, nodes, neighbors, j);
    ghost var now := AppendAll(nids[n.ent.id], n, k, nodes, base, was);
    assert now == Step(M2M, hits, nodes, n, was);
    err := None;
  }

  /** The last loop of the many-to-many loader. */
  method AssignJoined(neighbors: seq<Node>, nids: map<int, set<Node>>, k: nat, ghost hits: seq<Hit>,
                      ghost nodes: seq<Node>, ghost base: seq<seq<Slot>>)
    returns (err: Option<Error>, ghost now: seq<Slot>)
    requires Slots(nodes, base, k, Blank(M2M, |nodes|))
    requires Collected(nodes, hits, nids)
    modifies nodes
    ensures Slots(nodes, base, k, now)
    ensures err.None? <==> AllIn(neighbors, nids.Keys, |neighbors|)
    ensures err.None? ==> now == After(M2M, hits, nodes, neighbors, |neighbors|)
  {
    err := None;
    var j := 0;
    while j < |neighbors|
      invariant 0 <= j <= |neighbors| && err.None?
      invariant AllIn(neighbors, nids.Keys, j)
      invariant Slots(nodes, base, k, After(M2M, hits, nodes, neighbors, j))
    {
      err := AssignLinked(neighbors, j, nids, k, hits, nodes, base);
      if err.Some? {
        return err, After(M2M, hits, nodes, neighbors, j);
      }
      j := j + 1;
    }
    now := After(M2M, hits, nodes, neighbors, |neighbors|);
  }

  // ---------------------------------------------------------------- the loaders

  ghost function Ents(nodes: seq<Node>): (es: seq<Entity>)
    ensures |es| == |nodes| && forall i | 0 <= i < |es| :: es[i] == nodes[i].ent
  {
    seq(|nodes|, i requires 0 <= i < |nodes| => nodes[i].ent)
  }

  /** The i-th slot is the edge of shape s that the batch query q resolves for the i-th node. */
  ghost predicate Resolved(db: Database, s: Shape, q: Plan, nodes: seq<Node>, now: seq<Slot>, S: set<object>)
    requires WellTyped(q)
    reads S
  {
    && |now| == |nodes|
    && forall i | 0 <= i < |nodes| ::
         SlotShows(now[i], Resolve(s, Eval(db, q), Hits(db, RequestOf(Prepared(q))), nodes[i].ent), S)
  }

  ghost predicate Apart(nodes: seq<Node>, S: set<object>) {
    forall n | n in nodes :: n !in S
  }

  /** Handing out the result of q, in order, resolves the edge. */
  lemma HandedOut(db: Database, s: Shape, q: Plan, hits: seq<Hit>, nodes: seq<Node>, ns: seq<Node>, S: set<object>)
    requires WellTyped(q) && AllShow(ns, Eval(db, q), S)
    requires s.M2M? ==> hits == Hits(db, RequestOf(Prepared(q)))
    ensures Resolved(db, s, q, nodes, After(s, hits, nodes, ns, |ns|), S)
  {
    var now, links, vs := After(s, hits, nodes, ns, |ns|), Hits(db, RequestOf(Prepared(q))), Eval(db, q);
    assert vs[..|ns|] == vs;
    forall i | 0 <= i < |nodes| ensures SlotShows(now[i], Resolve(s, vs, links, nodes[i].ent), S) {
      AfterShows(s, hits, nodes, ns, vs, |ns|, i, S);
      if !s.M2M? { ResolveHits(s, vs, hits, links, nodes[i].ent); }
    }
  }

  /** The first loop of a one-to-many loader. */
  method IndexNodes(nodes: seq<Node>) returns (fks: seq<int>, nodeids: map<int, Node>)
    ensures fks == IDs(Ents(nodes)) && nodeids == ByIDMap(nodes, |nodes|)
  {
    fks, nodeids := [], map[];
    var i := 0;
    while i < |nodes|
      invariant 0 <= i <= |nodes|
      invariant fks == IDs(Ents(nodes))[..i] && nodeids == ByIDMap(nodes, i)
    {
      fks := fks + [nodes[i].ent.id];
      nodeids := nodeids[nodes[i].ent.id := nodes[i]];
      i := i + 1;
    }
  }

  /** The configuration a one-to-many loader appends to the neighbour builder. */
  method NarrowOwned(query: Query, fk: ForeignKey, fks: seq<int>, ghost p: Plan)
    requires query.Denotes(p)
    modifies query`preds, query.ctx`fields
    ensures query.Denotes(Narrow(p, O2M(fk), fks))
  {
    ghost var q := p;
    if query.ctx.fields != [] {
      query.AppendFieldOnce(Ref(fk), p);
      q := p.(fields := AddOnce(p.fields, Ref(fk)));
    }
    query.Where([RefIn(fk, fks)], q);
  }

  /** AssignOwned writes nothing but the nodes: the builder and the loaded neighbours stay as they are. */
  method HandOutOwned(ghost query: Query, neighbors: seq<Node>, nodeids: map<int, Node>, k: nat, fk: ForeignKey,
                      ghost nodes: seq<Node>, ghost base: seq<seq<Slot>>, ghost p: Plan, ghost vs: seq<Val>,
                      ghost S: set<object>)
    returns (err: Option<Error>, ghost now: seq<Slot>)
    requires query.Denotes(p) && Apart(nodes, query.Repr) && AllShow(neighbors, vs, S) && Apart(nodes, S)
    requires Slots(nodes, base, k, Blank(O2M(fk), |nodes|))
    requires Indexed(nodes, nodeids)
    modifies nodes
    ensures query.Denotes(p) && AllShow(neighbors, vs, S)
    ensures Slots(nodes, base, k, now)
    ensures err.None? <==> AllNamed(neighbors, fk, nodeids, |neighbors|)
    ensures err.None? ==> now == After(O2M(fk), [], nodes, neighbors, |neighbors|)
  {
    err, now := AssignOwned(neighbors, nodeids, k, O2M(fk), nodes, base);
  }

  /** The neighbours the query q returns name nodes of the batch. */
  ghost predicate Owned(db: Database, q: Plan, fk: ForeignKey, nodeids: map<int, Node>)
    requires WellTyped(q)
  {
    forall v | v in Eval(db, q) :: KeyOf(v.ent, fk).Some? && KeyOf(v.ent, fk).value in nodeids
  }

  lemma OwnersIndexed(db: Database, p: Plan, fk: ForeignKey, nodes: seq<Node>)
    requires WellTyped(p) && DistinctIDs(nodes)
    ensures WellTyped(Narrow(p, O2M(fk), IDs(Ents(nodes))))
    ensures Owned(db, Narrow(p, O2M(fk), IDs(Ents(nodes))), fk, ByIDMap(nodes, |nodes|))
  {
    var ids := IDs(Ents(nodes));
    NarrowHeight(p, O2M(fk), ids);
    var q, vs := Sent(p, O2M(fk), ids), Eval(db, Narrow(p, O2M(fk), ids));
    OwnersKnown(db, p, fk, ids);
    forall v | v in vs ensures KeyOf(v.ent, fk).Some? && KeyOf(v.ent, fk).value in ByIDMap(nodes, |nodes|) {
      var j :| 0 <= j < |vs| && vs[j] == v;
      assert v.ent == Entities(db, q)[j] && Entities(db, q)[j] in Entities(db, q);
      ByIDMapAt(nodes, |nodes|, KeyOf(v.ent, fk).value);
    }
  }

  lemma OwnersNamed(db: Database, q: Plan, fk: ForeignKey, nodeids: map<int, Node>, ns: seq<Node>, S: set<object>)
    requires WellTyped(q) && Owned(db, q, fk, nodeids) && AllShow(ns, Eval(db, q), S)
    ensures AllNamed(ns, fk, nodeids, |ns|)
  {
    var vs := Eval(db, q);
    forall j | 0 <= j < |ns| ensures Names(ns[j], fk, nodeids) {
      assert Shows(ns[j], vs[j], S) && vs[j] in vs;
    }
    AllNamedAt(ns, fk, nodeids, |ns|);
  }

  /** Running a neighbour builder leaves the nodes that wait for the neighbours alone. */
  method RunBatch(query: Query, db: Database, ghost q: Plan, k: nat, ghost nodes: seq<Node>, ghost base: seq<seq<Slot>>,
                  ghost was: seq<Slot>)
    returns (err: Option<Error>, neighbors: seq<Node>, ghost S: set<object>, ghost p': Plan)
    requires query.Denotes(q) && WellTyped(q) && Loadable(q) && ValidDatabase(db)
    requires Slots(nodes, base, k, was) && Apart(nodes, query.Repr)
    modifies query.Repr
    ensures query.Denotes(p') && query.Repr == old(query.Repr)
    ensures fresh(S) && Apart(nodes, S) && Slots(nodes, base, k, was)
    ensures err.None? <==> Passes(db, q)
    ensures err.None? ==> p' == AfterRun(db, q) && AllShow(neighbors, Eval(db, q), S)
    decreases Height(q), 3
  {
    err, neighbors, S, p' := All(query, db, q);
  }

  /** The second half of a one-to-many loader: run the narrowed builder and hand its nodes out. */
  method RunOwned(query: Query, db: Database, nodeids: map<int, Node>, k: nat, fk: ForeignKey, ghost nodes: seq<Node>,
                  ghost base: seq<seq<Slot>>, ghost q: Plan)
    returns (err: Option<Error>, ghost now: seq<Slot>, ghost S: set<object>, ghost p': Plan)
    requires query.Denotes(q) && WellTyped(q) && Loadable(q) && ValidDatabase(db)
    requires Slots(nodes, base, k, Blank(O2M(fk), |nodes|)) && Apart(nodes, query.Repr)
    requires Indexed(nodes, nodeids) && Owned(db, q, fk, nodeids)
    modifies query.Repr, nodes
    ensures query.Denotes(p') && query.Repr == old(query.Repr)
    ensures fresh(S) && Slots(nodes, base, k, now)
    ensures err.None? <==> Passes(db, q)
    ensures err.None? ==> p' == AfterRun(db, q) && Resolved(db, O2M(fk), q, nodes, now, S)
    decreases Height(q), 4
  {
    var neighbors;
    now := Blank(O2M(fk), |nodes|);
    err, neighbors, S, p' := RunBatch(query, db, q, k, nodes, base, now);
    if err.None? {
      err, now := HandOutOwned(query, neighbors, nodeids, k, fk, nodes, base, p', Eval(db, q), S);
      OwnersNamed(db, q, fk, nodeids, neighbors, S);
      HandedOut(db, O2M(fk), q, [], nodes, neighbors, S);
    }
  }

  /** loadChildren, loadUsageLogs, loadAccountGroups. */
  method LoadOwned(query: Query, db: Database, nodes: seq<Node>, k: nat, fk: ForeignKey, ghost p: Plan,
                   ghost base: seq<seq<Slot>>)
    returns (err: Option<Error>, ghost now: seq<Slot>, ghost S: set<object>, ghost p': Plan)
    requires query.Denotes(p) && WellTyped(p) && Loadable(p) && ValidDatabase(db)
    requires Slots(nodes, base, k, Blank(O2M(fk), |nodes|)) && DistinctIDs(nodes) && Apart(nodes, query.Repr)
    modifies query.Repr, nodes
    ensures query.Denotes(p') && query.Repr == old(query.Repr)
    ensures fresh(S) && Slots(nodes, base, k, now)
    ensures var q := Narrow(p, O2M(fk), IDs(Ents(nodes)));
              && WellTyped(q)
              && (err.None? <==> Passes(db, q))
              && (err.None? ==> p' == AfterRun(db, q) && Resolved(db, O2M(fk), q, nodes, now, S))
    decreases Height(p), 5
  {
    var fks, nodeids := IndexNodes(nodes);
    NarrowHeight(p, O2M(fk), fks);
    NarrowOwned(query, fk, fks, p);
    OwnersIndexed(db, p, fk, nodes);
    ByIDMapIndexed(nodes);
    err, now, S, p' := RunOwned(query, db, nodeids, k, fk, nodes, base, Narrow(p, O2M(fk), fks));
  }

  // ---------------------------------------------------------------- loadProxy, loadParent, loadAccount, loadGroup

  /** The first loop of a many-to-one loader; nodes whose foreign key is nil are skipped. */
  method IndexKeys(nodes: seq<Node>, fk: ForeignKey) returns (ids: seq<int>, nodeids: map<int, seq<Node>>)
    ensures ids == DistinctKeys(Ents(nodes), fk) && nodeids == ByKeyMap(nodes, fk, |nodes|)
  {
    ids, nodeids := [], map[];
    var i := 0;
    while i < |nodes|
      invariant 0 <= i <= |nodes|
      invariant ids == DistinctKeys(Ents(nodes)[..i], fk) && nodeids == ByKeyMap(nodes, fk, i)
    {
      assert Ents(nodes)[..i + 1][..i] == Ents(nodes)[..i];
      var key := KeyOf(nodes[i].ent, fk);
      if key.Some? {
        KeysIndexed(nodes, fk, i, key.value);
        if key.value !in nodeids {
          ids := ids + [key.value];
        }
        nodeids := AddOwner(nodeids, key.value, nodes[i]);
      }
      i := i + 1;
    }
    assert Ents(nodes)[..i] == Ents(nodes);
  }

  /** The ids asked for are exactly the indexed keys. */
  lemma {:induction false} KeysIndexed(nodes: seq<Node>, fk: ForeignKey, n: nat, id: int)
    requires n <= |nodes|
    ensures id in DistinctKeys(Ents(nodes)[..n], fk) <==> id in ByKeyMap(nodes, fk, n)
  {
    if n != 0 {
      assert Ents(nodes)[..n][..n - 1] == Ents(nodes)[..n - 1];
      KeysIndexed(nodes, fk, n - 1, id);
      var key := KeyOf(nodes[n - 1].ent, fk);
      if key.Some? { KeysIndexed(nodes, fk, n - 1, key.value); }
    }
  }

  lemma KeysExpected(db: Database, p: Plan, fk: ForeignKey, nodes: seq<Node>)
    requires WellTyped(p) && HasID(p.table)
    ensures var q := Narrow(p, M2O(fk), DistinctKeys(Ents(nodes), fk));
              WellTyped(q) && forall v | v in Eval(db, q) :: v.ent.id in ByKeyMap(nodes, fk, |nodes|)
  {
    var keys := DistinctKeys(Ents(nodes), fk);
    NarrowHeight(p, M2O(fk), keys);
    var q, vs := Sent(p, M2O(fk), keys), Eval(db, Narrow(p, M2O(fk), keys));
    KeysKnown(db, p, fk, keys);
    forall v | v in vs ensures v.ent.id in ByKeyMap(nodes, fk, |nodes|) {
      var j :| 0 <= j < |vs| && vs[j] == v;
      assert v.ent == Entities(db, q)[j] && Entities(db, q)[j] in Entities(db, q);
      KeysIndexed(nodes, fk, |nodes|, v.ent.id);
      assert Ents(nodes)[..|nodes|] == Ents(nodes);
    }
  }

  method HandOutReferenced(ghost query: Query, neighbors: seq<Node>, nodeids: map<int, seq<Node>>, k: nat,
                           fk: ForeignKey, ghost nodes: seq<Node>, ghost base: seq<seq<Slot>>, ghost p: Plan,
                           ghost vs: seq<Val>, ghost S: set<object>)
    returns (err: Option<Error>, ghost now: seq<Slot>)
    requires query.Denotes(p) && Apart(nodes, query.Repr) && AllShow(neighbors, vs, S) && Apart(nodes, S)
    requires Slots(nodes, base, k, Blank(M2O(fk), |nodes|))
    requires HeldBy(nodes, fk, nodeids)
    modifies nodes
    ensures query.Denotes(p) && AllShow(neighbors, vs, S)
    ensures Slots(nodes, base, k, now)
    ensures err.None? <==> AllIn(neighbors, nodeids.Keys, |neighbors|)
    ensures err.None? ==> now == After(M2O(fk), [], nodes, neighbors, |neighbors|)
  {
    err, now := AssignReferenced(neighbors, nodeids, k, M2O(fk), nodes, base);
  }

  lemma NeighboursIn(vs: seq<Val>, ids: set<int>, ns: seq<Node>, S: set<object>)
    requires AllShow(ns, vs, S) && forall v | v in vs :: v.ent.id in ids
    ensures AllIn(ns, ids, |ns|)
  {
    forall j | 0 <= j < |ns| ensures ns[j].ent.id in ids {
      assert Shows(ns[j], vs[j], S) && vs[j] in vs;
    }
    AllInAt(ns, ids, |ns|);
  }

  method RunReferenced(query: Query, db: Database, nodeids: map<int, seq<Node>>, k: nat, fk: ForeignKey,
                       ghost nodes: seq<Node>, ghost base: seq<seq<Slot>>, ghost q: Plan)
    returns (err: Option<Error>, ghost now: seq<Slot>, ghost S: set<object>, ghost p': Plan)
    requires query.Denotes(q) && WellTyped(q) && Loadable(q) && ValidDatabase(db)
    requires Slots(nodes, base, k, Blank(M2O(fk), |nodes|)) && Apart(nodes, query.Repr)
    requires HeldBy(nodes, fk, nodeids) && forall v | v in Eval(db, q) :: v.ent.id in nodeids
    modifies query.Repr, nodes
    ensures query.Denotes(p') && query.Repr == old(query.Repr)
    ensures fresh(S) && Slots(nodes, base, k, now)
    ensures err.None? <==> Passes(db, q)
    ensures err.None? ==> p' == AfterRun(db, q) && Resolved(db, M2O(fk), q, nodes, now, S)
    decreases Height(q), 4
  {
    var neighbors;
    now := Blank(M2O(fk), |nodes|);
    err, neighbors, S, p' := RunBatch(query, db, q, k, nodes, base, now);
    if err.None? {
      err, now := HandOutReferenced(query, neighbors, nodeids, k, fk, nodes, base, p', Eval(db, q), S);
      NeighboursIn(Eval(db, q), nodeids.Keys, neighbors, S);
      HandedOut(db, M2O(fk), q, [], nodes, neighbors, S);
    }
  }

  /** With no foreign key to follow, every edge of the batch stays nil. */
  lemma {:induction false} NoKeys(s: Shape, es: seq<Entity>, fk: ForeignKey, vs: seq<Val>, hits: seq<Hit>, i: nat)
    requires s == M2O(fk) && DistinctKeys(es, fk) == [] && i < |es|
    ensures Resolve(s, vs, hits, es[i]) == One(None)
    decreases |es| + |vs|
  {
    if i < |es| - 1 {
      NoKeys(s, es[..|es| - 1], fk, vs, hits, i);
    } else if vs != [] {
      NoKeys(s, es, fk, vs[..|vs| - 1], hits, i);
    }
  }

  lemma NothingToResolve(db: Database, fk: ForeignKey, q: Plan, nodes: seq<Node>, S: set<object>)
    requires WellTyped(q) && DistinctKeys(Ents(nodes), fk) == []
    ensures Resolved(db, M2O(fk), q, nodes, Blank(M2O(fk), |nodes|), S)
  {
    var now, links, vs := Blank(M2O(fk), |nodes|), Hits(db, RequestOf(Prepared(q))), Eval(db, q);
    forall i | 0 <= i < |nodes| ensures SlotShows(now[i], Resolve(M2O(fk), vs, links, nodes[i].ent), S) {
      NoKeys(M2O(fk), Ents(nodes), fk, vs, links, i);
    }
  }

  method LoadReferenced(query: Query, db: Database, nodes: seq<Node>, k: nat, fk: ForeignKey, ghost p: Plan,
                        ghost base: seq<seq<Slot>>)
    returns (err: Option<Error>, ghost now: seq<Slot>, ghost S: set<object>, ghost p': Plan)
    requires query.Denotes(p) && WellTyped(p) && Loadable(p) && ValidDatabase(db) && HasID(p.table)
    requires Slots(nodes, base, k, Blank(M2O(fk), |nodes|)) && Apart(nodes, query.Repr)
    modifies query.Repr, nodes
    ensures query.Denotes(p') && query.Repr == old(query.Repr)
    ensures fresh(S) && Slots(nodes, base, k, now)
    ensures var keys := DistinctKeys(Ents(nodes), fk); var q := Narrow(p, M2O(fk), keys);
              && WellTyped(q)
              && (err.None? <==> keys == [] || Passes(db, q))
              && (err.None? ==>
                    && p' == (if keys == [] then p else AfterRun(db, q))
                    && Resolved(db, M2O(fk), q, nodes, now, S))
    decreases Height(p), 5
  {
    var ids, nodeids := IndexKeys(nodes, fk);
    NarrowHeight(p, M2O(fk), ids);
    if ids == [] {
      err, now, S, p' := None, Blank(M2O(fk), |nodes|), {}, p;
      NothingToResolve(db, fk, Narrow(p, M2O(fk), ids), nodes, S);
    } else {
      query.Where([IDIn(ids)], p);
      KeysExpected(db, p, fk, nodes);
      KeyHolders(nodes, fk);
      err, now, S, p' := RunReferenced(query, db, nodeids, k, fk, nodes, base, Narrow(p, M2O(fk), ids));
    }
  }

  // ---------------------------------------------------------------- loadGroups

  /** Every hit of the join belongs to an indexed node, and every neighbour was hit. */
  lemma LinksIndexed(db: Database, p: Plan, nodes: seq<Node>)
    requires WellTyped(p) && HasID(p.table) && DistinctIDs(nodes)
    ensures var q := Narrow(p, M2M, IDs(Ents(nodes)));
              && WellTyped(q)
              && Known(Hits(db, RequestOf(Prepared(q))), ByIDMap(nodes, |nodes|))
              && (forall v | v in Eval(db, q) :: Seen(Hits(db, RequestOf(Prepared(q))), v.ent.id))
  {
    var ids := IDs(Ents(nodes));
    NarrowHeight(p, M2M, ids);
    var q, vs := Sent(p, M2M, ids), Eval(db, Narrow(p, M2M, ids));
    var hits := Hits(db, RequestOf(q));
    LinksKnown(db, p, ids);
    forall h | h in hits ensures h.owner in ByIDMap(nodes, |nodes|) {
      ByIDMapAt(nodes, |nodes|, h.owner);
    }
    forall v | v in vs ensures Seen(hits, v.ent.id) {
      var j :| 0 <= j < |vs| && vs[j] == v;
      assert v.ent == Entities(db, q)[j] && Entities(db, q)[j] in Entities(db, q);
    }
  }

  method HandOutJoined(ghost query: Query, neighbors: seq<Node>, nids: map<int, set<Node>>, k: nat,
                       ghost hits: seq<Hit>, ghost nodes: seq<Node>, ghost base: seq<seq<Slot>>, ghost p: Plan,
                       ghost vs: seq<Val>, ghost S: set<object>)
    returns (err: Option<Error>, ghost now: seq<Slot>)
    requires query.Denotes(p) && Apart(nodes, query.Repr) && AllShow(neighbors, vs, S) && Apart(nodes, S)
    requires Slots(nodes, base, k, Blank(M2M, |nodes|))
    requires Collected(nodes, hits, nids)
    modifies nodes
    ensures query.Denotes(p) && AllShow(neighbors, vs, S)
    ensures Slots(nodes, base, k, now)
    ensures err.None? <==> AllIn(neighbors, nids.Keys, |neighbors|)
    ensures err.None? ==> now == After(M2M, hits, nodes, neighbors, |neighbors|)
  {
    err, now := AssignJoined(neighbors, nids, k, hits, nodes, base);
  }

  /** The query of a many-to-many loader is prepared and sent by hand, so that its rows can be intercepted. */
  method RunJoin(query: Query, db: Database, byID: map<int, Node>, k: nat, ghost q: Plan, ghost nodes: seq<Node>,
                 ghost base: seq<seq<Slot>>, ghost was: seq<Slot>)
    returns (err: Option<Error>, neighbors: seq<Node>, nids: map<int, set<Node>>, ghost S: set<object>, ghost p': Plan)
    requires query.Denotes(q) && WellTyped(q) && SubsLoadable(q) && q.joins != [] && ValidDatabase(db)
    requires Known(Hits(db, RequestOf(Prepared(q))), byID)
    requires Slots(nodes, base, k, was) && Apart(nodes, query.Repr)
    modifies query.Repr
    ensures query.Denotes(p') && query.Repr == old(query.Repr)
    ensures fresh(S) && Apart(nodes, S) && Slots(nodes, base, k, was)
    ensures err.None? <==> Passes(db, q)
    ensures err.None? ==> p' == AfterRun(db, q) && AllShow(neighbors, Eval(db, q), S)
    ensures err.None? ==> nids == LinkMap(Hits(db, RequestOf(Prepared(q))), byID)
    decreases Height(q), 3
  {
    PreparedHeight(q);
    neighbors, nids, S := [], map[], {};
    err, p' := query.PrepareQuery(q);
    if err.Some? {
      return;
    }
    err, neighbors, nids, S, p' := SqlAll(query, db, byID, Prepared(q));
  }

  method RunJoined(query: Query, db: Database, byID: map<int, Node>, k: nat, ghost nodes: seq<Node>,
                   ghost base: seq<seq<Slot>>, ghost q: Plan)
    returns (err: Option<Error>, ghost now: seq<Slot>, ghost S: set<object>, ghost p': Plan)
    requires query.Denotes(q) && WellTyped(q) && SubsLoadable(q) && q.joins != [] && ValidDatabase(db)
    requires Slots(nodes, base, k, Blank(M2M, |nodes|)) && DistinctIDs(nodes) && Apart(nodes, query.Repr)
    requires byID == ByIDMap(nodes, |nodes|)
    requires Known(Hits(db, RequestOf(Prepared(q))), byID)
    requires forall v | v in Eval(db, q) :: Seen(Hits(db, RequestOf(Prepared(q))), v.ent.id)
    modifies query.Repr, nodes
    ensures query.Denotes(p') && query.Repr == old(query.Repr)
    ensures fresh(S) && Slots(nodes, base, k, now)
    ensures err.None? <==> Passes(db, q)
    ensures err.None? ==> p' == AfterRun(db, q) && Resolved(db, M2M, q, nodes, now, S)
    decreases Height(q), 4
  {
    ghost var hits := Hits(db, RequestOf(Prepared(q)));
    now := Blank(M2M, |nodes|);
    var neighbors, nids;
    err, neighbors, nids, S, p' := RunJoin(query, db, byID, k, q, nodes, base, now);
    if err.None? {
      LinkedNodes(hits, nodes);
      err, now := HandOutJoined(query, neighbors, nids, k, hits, nodes, base, p', Eval(db, q), S);
      NeighboursIn(Eval(db, q), nids.Keys, neighbors, S);
      HandedOut(db, M2M, q, hits, nodes, neighbors, S);
    }
  }

  method LoadJoined(query: Query, db: Database, nodes: seq<Node>, k: nat, ghost p: Plan, ghost base: seq<seq<Slot>>)
    returns (err: Option<Error>, ghost now: seq<Slot>, ghost S: set<object>, ghost p': Plan)
    requires query.Denotes(p) && WellTyped(p) && SubsLoadable(p) && ValidDatabase(db) && HasID(p.table)
    requires Slots(nodes, base, k, Blank(M2M, |nodes|)) && DistinctIDs(nodes) && Apart(nodes, query.Repr)
    modifies query.Repr, nodes
    ensures query.Denotes(p') && query.Repr == old(query.Repr)
    ensures fresh(S) && Slots(nodes, base, k, now)
    ensures var q := Narrow(p, M2M, IDs(Ents(nodes)));
              && WellTyped(q)
              && (err.None? <==> Passes(db, q))
              && (err.None? ==> p' == AfterRun(db, q) && Resolved(db, M2M, q, nodes, now, S))
    decreases Height(p), 5
  {
    var edgeIDs, byID := IndexNodes(nodes);
    NarrowHeight(p, M2M, edgeIDs);
    query.Join(edgeIDs, p);
    LinksIndexed(db, p, nodes);
    err, now, S, p' := RunJoined(query, db, byID, k, nodes, base, Narrow(p, M2M, edgeIDs));
  }

  // ---------------------------------------------------------------- a whole run

  /** The edges of the nodes of a batch. */
  ghost predicate Holding(nodes: seq<Node>, edges: seq<seq<Slot>>)
    reads nodes
  {
    |nodes| == |edges| && forall i | 0 <= i < |nodes| :: nodes[i].edges == edges[i]
  }

  /** Slots 0..n of every node show their edges, the others are untouched. */
  ghost predicate Shown(db: Database, p: Plan, ents: seq<Entity>, edges: seq<seq<Slot>>, n: nat, S: set<object>)
    requires WellTyped(p) && n <= |p.subs|
    reads S
  {
    && |edges| == |ents|
    && (forall i | 0 <= i < |edges| :: |edges[i]| == |p.subs|)
    && (forall i, k | 0 <= i < |edges| && n <= k < |p.subs| :: edges[i][k] == EmptySlots(p.table)[k])
    && (forall i, k | 0 <= i < |edges| && 0 <= k < n :: SlotShows(edges[i][k], LoadEdge(db, p, ents, i, k), S))
  }

  /** What the loader of an edge has to do: run the batch query, unless there is no key to ask for. */
  lemma Queried(db: Database, p: Plan, ents: seq<Entity>, k: nat)
    requires WellTyped(p) && k < |p.subs| && p.subs[k].Some? && ents != []
    ensures var s, q := Edges(p.table)[k].shape, Batch(p, ents, k);
              var none := s.M2O? && BatchKeys(s, ents) == [];
                && (PassesEdge(db, p, ents, k) <==> none || Passes(db, q))
                && AfterEdge(db, p, ents, k) == Some(if none then p.subs[k].value else AfterRun(db, q))
  {
  }

  /** The loader of edge k, chosen by its shape. */
  method LoadEdgeAt(sub: Query, db: Database, nodes: seq<Node>, t: Table, k: nat, ghost p: Plan,
                    ghost edges: seq<seq<Slot>>)
    returns (err: Option<Error>, ghost now: seq<Slot>, ghost S: set<object>, ghost p': Plan)
    requires WellTyped(p) && t == p.table && k < |p.subs| && p.subs[k].Some? && SubsLoadable(p)
    requires sub.Denotes(p.subs[k].value) && ValidDatabase(db)
    requires nodes != [] && (HasID(t) ==> DistinctIDs(nodes)) && Apart(nodes, sub.Repr)
    requires Slots(nodes, edges, k, Blank(Edges(t)[k].shape, |nodes|))
    modifies sub.Repr, nodes
    ensures sub.Denotes(p') && sub.Repr == old(sub.Repr)
    ensures fresh(S) && Slots(nodes, edges, k, now)
    ensures err.None? <==> PassesEdge(db, p, Ents(nodes), k)
    ensures err.None? ==> Some(p') == AfterEdge(db, p, Ents(nodes), k)
    ensures err.None? ==> Resolved(db, Edges(t)[k].shape, Batch(p, Ents(nodes), k), nodes, now, S)
    decreases Height(p), 0, 0
  {
    Queried(db, p, Ents(nodes), k);
    match Edges(t)[k].shape {
      case M2M => err, now, S, p' := LoadJoined(sub, db, nodes, k, p.subs[k].value, edges);
      case M2O(fk) => err, now, S, p' := LoadReferenced(sub, db, nodes, k, fk, p.subs[k].value, edges);
      case O2M(fk) => err, now, S, p' := LoadOwned(sub, db, nodes, k, fk, p.subs[k].value, edges);
    }
  }

  /** An edge that is not loaded keeps its empty slot. */
  lemma Skipped(db: Database, p: Plan, ents: seq<Entity>, edges: seq<seq<Slot>>, k: nat, S: set<object>)
    requires WellTyped(p) && k < |p.subs| && p.subs[k].None? && Shown(db, p, ents, edges, k, S)
    ensures Shown(db, p, ents, edges, k + 1, S) && PassesEdge(db, p, ents, k)
    ensures AfterLoad(db, p, ents, k + 1) == AfterLoad(db, p, ents, k)
  {
    assert AfterLoad(db, p, ents, k + 1).subs == AfterLoad(db, p, ents, k).subs;
    forall i | 0 <= i < |edges| ensures SlotShows(edges[i][k], LoadEdge(db, p, ents, i, k), S) {
      assert edges[i][k] == EmptySlots(p.table)[k];
    }
  }

  ghost function Update(edges: seq<seq<Slot>>, k: nat, now: seq<Slot>): (es: seq<seq<Slot>>)
    requires |edges| == |now| && forall i | 0 <= i < |edges| :: k < |edges[i]|
    ensures |es| == |edges| && forall i | 0 <= i < |es| :: es[i] == edges[i][k := now[i]]
  {
    seq(|edges|, i requires 0 <= i < |edges| => edges[i][k := now[i]])
  }

  /** Filling slot k of every node of a batch with its edge. */
  lemma Filled(db: Database, p: Plan, nodes: seq<Node>, edges: seq<seq<Slot>>, k: nat, now: seq<Slot>, S: set<object>,
               T: set<object>)
    requires WellTyped(p) && k < |p.subs| && p.subs[k].Some?
    requires Shown(db, p, Ents(nodes), edges, k, S)
    requires Resolved(db, Edges(p.table)[k].shape, Batch(p, Ents(nodes), k), nodes, now, T)
    ensures Shown(db, p, Ents(nodes), Update(edges, k, now), k + 1, S + T)
  {
    var ents, es := Ents(nodes), Update(edges, k, now);
    forall i, j | 0 <= i < |es| && 0 <= j < k + 1 ensures SlotShows(es[i][j], LoadEdge(db, p, ents, i, j), S + T) {
      if j == k {
        SlotShowsMonotone(now[i], LoadEdge(db, p, ents, i, k), T, S + T);
      } else {
        SlotShowsMonotone(edges[i][j], LoadEdge(db, p, ents, i, j), S, S + T);
      }
    }
  }

  /** Loading edge k, seen from the builder that owns it. */
  method LoadBelow(query: Query, db: Database, nodes: seq<Node>, k: nat, ghost p: Plan, ghost cur: Plan,
                   ghost edges: seq<seq<Slot>>, ghost S: set<object>)
    returns (err: Option<Error>, ghost now: seq<Slot>, ghost T: set<object>, ghost q: Plan)
    requires WellTyped(p) && ValidDatabase(db) && k < |p.subs| && p.subs[k].Some? && SubsLoadable(p)
    requires query.Denotes(cur) && |cur.subs| == |p.subs| && cur.table == p.table && cur.subs[k] == p.subs[k]
    requires nodes != [] && (HasID(p.table) ==> DistinctIDs(nodes)) && Apart(nodes, query.Repr)
    requires Apart(nodes, S) && S !! query.Repr
    requires Slots(nodes, edges, k, Blank(Edges(p.table)[k].shape, |nodes|))
    modifies query.Repr, nodes
    ensures query.Denotes(cur.(subs := cur.subs[k := Some(q)])) && query.Repr == old(query.Repr)
    ensures unchanged(S) && fresh(T) && Slots(nodes, edges, k, now)
    ensures err.None? <==> PassesEdge(db, p, Ents(nodes), k)
    ensures err.None? ==> Some(q) == AfterEdge(db, p, Ents(nodes), k)
    ensures err.None? ==> Resolved(db, Edges(p.table)[k].shape, Batch(p, Ents(nodes), k), nodes, now, T)
    decreases Height(p), 0, 1
  {
    var sub := query.eager[k];
    query.TakeOut(cur, k);
    ghost var kept := query.Repr - sub.Repr;
    err, now, T, q := LoadEdgeAt(sub, db, nodes, query.table, k, p, edges);
    query.PutBack(cur, k, kept, q);
  }

  lemma StillBlank(db: Database, p: Plan, nodes: seq<Node>, edges: seq<seq<Slot>>, k: nat, S: set<object>)
    requires WellTyped(p) && k < |p.subs| && Holding(nodes, edges) && Shown(db, p, Ents(nodes), edges, k, S)
    ensures Slots(nodes, edges, k, Blank(Edges(p.table)[k].shape, |nodes|))
  {
    var blank := Blank(Edges(p.table)[k].shape, |nodes|);
    forall i | 0 <= i < |nodes| ensures k < |edges[i]| && nodes[i].edges == edges[i][k := blank[i]] {
      assert edges[i][k] == EmptySlots(p.table)[k] == blank[i];
    }
  }

  lemma OneEdgeMore(db: Database, p: Plan, ents: seq<Entity>, k: nat, cur: Plan, q: Plan)
    requires WellTyped(p) && k < |p.subs| && cur == AfterLoad(db, p, ents, k) && Some(q) == AfterEdge(db, p, ents, k)
    ensures cur.(subs := cur.subs[k := Some(q)]) == AfterLoad(db, p, ents, k + 1)
  {
    assert cur.subs[k := Some(q)] == AfterLoad(db, p, ents, k + 1).subs;
  }

  /** Loading edge k, seen from the nodes of the batch. */
  method LoadNext(query: Query, db: Database, nodes: seq<Node>, k: nat, ghost p: Plan, ghost cur: Plan,
                  ghost edges: seq<seq<Slot>>, ghost S: set<object>)
    returns (err: Option<Error>, ghost edges': seq<seq<Slot>>, ghost S': set<object>, ghost cur': Plan)
    requires WellTyped(p) && ValidDatabase(db) && k < |p.subs| && p.subs[k].Some? && SubsLoadable(p)
    requires query.Denotes(cur) && cur == AfterLoad(db, p, Ents(nodes), k)
    requires nodes != [] && (HasID(p.table) ==> DistinctIDs(nodes)) && Apart(nodes, query.Repr)
    requires Apart(nodes, S) && S !! query.Repr
    requires Holding(nodes, edges) && Shown(db, p, Ents(nodes), edges, k, S)
    modifies query.Repr, nodes
    ensures query.Denotes(cur') && query.Repr == old(query.Repr) && cur' == cur.(subs := cur'.subs)
    ensures S <= S' && fresh(S' - S) && Holding(nodes, edges')
    ensures err.None? <==> PassesEdge(db, p, Ents(nodes), k)
    ensures err.None? ==> cur' == AfterLoad(db, p, Ents(nodes), k + 1) && Shown(db, p, Ents(nodes), edges', k + 1, S')
    decreases Height(p), 0, 2
  {
    ghost var now, T, q;
    StillBlank(db, p, nodes, edges, k, S);
    err, now, T, q := LoadBelow(query, db, nodes, k, p, cur, edges, S);
    cur', edges', S' := cur.(subs := cur.subs[k := Some(q)]), Update(edges, k, now), S + T;
    if err.None? {
      Filled(db, p, nodes, edges, k, now, S, T);
      OneEdgeMore(db, p, Ents(nodes), k, cur, q);
    }
  }

  /** All: prepare the builder, then run it. */
  method All(query: Query, db: Database, ghost p: Plan)
    returns (err: Option<Error>, nodes: seq<Node>, ghost S: set<object>, ghost p': Plan)
    requires query.Denotes(p) && WellTyped(p) && Loadable(p) && ValidDatabase(db)
    modifies query.Repr
    ensures query.Denotes(p') && query.Repr == old(query.Repr)
    ensures fresh(S)
    ensures err.None? <==> Passes(db, p)
    ensures err.None? ==> p' == AfterRun(db, p) && AllShow(nodes, Eval(db, p), S)
    decreases Height(p), 2
  {
    PreparedHeight(p);
    nodes, S := [], {};
    err, p' := query.PrepareQuery(p);
    if err.Some? {
      return;
    }
    var nids;
    err, nodes, nids, S, p' := SqlAll(query, db, map[], Prepared(p));
  }

  /** A batch starts with every slot empty. */
  lemma BatchStart(db: Database, p: Plan, nodes: seq<Node>, edges: seq<seq<Slot>>)
    requires WellTyped(p) && |edges| == |nodes| && forall i | 0 <= i < |edges| :: edges[i] == EmptySlots(p.table)
    ensures Shown(db, p, Ents(nodes), edges, 0, {})
    ensures AfterLoad(db, p, Ents(nodes), 0) == p
  {
    assert AfterLoad(db, p, Ents(nodes), 0).subs == p.subs;
  }

  /** A statement without rows ends the run. */
  lemma NothingLoaded(db: Database, p: Plan)
    requires WellTyped(p) && Entities(db, p) == []
    ensures PassesAll(db, p, Entities(db, p)) && Load(db, p, Entities(db, p)) == []
    ensures AfterLoad(db, p, Entities(db, p), |p.subs|) == p
  {
    assert AfterLoad(db, p, Entities(db, p), |p.subs|).subs == p.subs;
  }

  /** Once every slot is filled, the nodes show what Load says. */
  lemma Assembled(db: Database, p: Plan, nodes: seq<Node>, edges: seq<seq<Slot>>, T: set<object>, S: set<object>)
    requires WellTyped(p) && Carry(nodes, Entities(db, p)) && Holding(nodes, edges)
    requires forall i | 0 <= i < |nodes| :: nodes[i].loaded == LoadedFlags(p)
    requires Shown(db, p, Entities(db, p), edges, |p.subs|, T)
    requires T <= S && forall n | n in nodes :: n in S
    ensures AllShow(nodes, Load(db, p, Entities(db, p)), S)
  {
    var ents, vs := Entities(db, p), Load(db, p, Entities(db, p));
    forall i | 0 <= i < |nodes| ensures Shows(nodes[i], vs[i], S) {
      assert nodes[i] in nodes;
      forall k | 0 <= k < |p.subs| ensures SlotShows(nodes[i].edges[k], vs[i].edges[k], S) {
        SlotShowsMonotone(edges[i][k], LoadEdge(db, p, ents, i, k), T, S);
      }
    }
  }

  /** The state of a run before edge k: the first k edges are loaded and shown. */
  ghost predicate Running(query: Query, db: Database, nodes: seq<Node>, p: Plan, cur: Plan, edges: seq<seq<Slot>>,
                          k: nat, T: set<object>)
    requires WellTyped(p) && k <= |p.subs|
    reads query, query.Repr, nodes, T
  {
    && query.Denotes(cur) && cur == AfterLoad(db, p, Ents(nodes), k)
    && Apart(nodes, query.Repr) && Apart(nodes, T) && T !! query.Repr
    && Holding(nodes, edges) && Shown(db, p, Ents(nodes), edges, k, T)
    && PassesUpTo(db, p, Ents(nodes), k)
  }

  /** One step of a run: load edge k if the builder asks for it. */
  method LoadStep(query: Query, db: Database, nodes: seq<Node>, k: nat, ghost p: Plan, ghost cur: Plan,
                  ghost edges: seq<seq<Slot>>, ghost T: set<object>)
    returns (err: Option<Error>, ghost edges': seq<seq<Slot>>, ghost T': set<object>, ghost cur': Plan)
    requires WellTyped(p) && ValidDatabase(db) && k < |p.subs| && SubsLoadable(p)
    requires nodes != [] && (HasID(p.table) ==> DistinctIDs(nodes)) && Running(query, db, nodes, p, cur, edges, k, T)
    modifies query.Repr, nodes
    ensures query.Repr == old(query.Repr) && T <= T' && fresh(T' - T)
    ensures query.Denotes(cur') && Holding(nodes, edges')
    ensures err.None? ==> Running(query, db, nodes, p, cur', edges', k + 1, T')
    ensures err.Some? ==> !PassesAll(db, p, Ents(nodes))
    decreases Height(p), 0, 3
  {
    err, edges', T', cur' := None, edges, T, cur;
    PassesOne(db, p, Ents(nodes), k);
    if query.eager[k] != null {
      err, edges', T', cur' := LoadNext(query, db, nodes, k, p, cur, edges, T);
    } else {
      Skipped(db, p, Ents(nodes), edges, k, T);
    }
  }

  /** One loader decides whether the run goes on. */
  lemma PassesOne(db: Database, p: Plan, ents: seq<Entity>, k: nat)
    requires WellTyped(p) && k < |p.subs| && PassesUpTo(db, p, ents, k)
    ensures PassesUpTo(db, p, ents, k + 1) <==> PassesEdge(db, p, ents, k)
    ensures !PassesEdge(db, p, ents, k) ==> !PassesAll(db, p, ents)
  {
  }

  /** The loaders of a run, in edge order; the first error ends it. */
  method LoadAllEdges(query: Query, db: Database, nodes: seq<Node>, ghost p: Plan)
    returns (err: Option<Error>, ghost edges: seq<seq<Slot>>, ghost T: set<object>, ghost p': Plan)
    requires query.Denotes(p) && WellTyped(p) && SubsLoadable(p) && ValidDatabase(db)
    requires nodes != [] && (HasID(p.table) ==> DistinctIDs(nodes)) && Apart(nodes, query.Repr)
    requires forall i | 0 <= i < |nodes| :: nodes[i].edges == EmptySlots(p.table)
    modifies query.Repr, nodes
    ensures query.Denotes(p') && query.Repr == old(query.Repr)
    ensures fresh(T) && Holding(nodes, edges)
    ensures err.None? <==> PassesAll(db, p, Ents(nodes))
    ensures err.None? ==> p' == AfterLoad(db, p, Ents(nodes), |p.subs|) && Shown(db, p, Ents(nodes), edges, |p.subs|, T)
    decreases Height(p), 0, 4
  {
    err, edges, T, p' := None, seq(|nodes|, i => EmptySlots(p.table)), {}, p;
    BatchStart(db, p, nodes, edges);
    var k := 0;
    while k < |query.eager|
      invariant 0 <= k <= |query.eager| == |p.subs| && err.None?
      invariant query.Repr == old(query.Repr) && fresh(T) && Running(query, db, nodes, p, p', edges, k, T)
    {
      err, edges, T, p' := LoadStep(query, db, nodes, k, p, p', edges, T);
      if err.Some? {
        return;
      }
      k := k + 1;
    }
  }

  /** The rest of sqlAll: nothing if there are no rows, else the loaders. */
  method LoadRows(query: Query, db: Database, nodes: seq<Node>, ghost p: Plan)
    returns (err: Option<Error>, ghost S: set<object>, ghost p': Plan)
    requires query.Denotes(p) && WellTyped(p) && SubsLoadable(p) && ValidDatabase(db)
    requires Carry(nodes, Entities(db, p)) && Apart(nodes, query.Repr)
    requires forall i | 0 <= i < |nodes| :: nodes[i].loaded == LoadedFlags(p) && nodes[i].edges == EmptySlots(p.table)
    modifies query.Repr, nodes
    ensures query.Denotes(p') && query.Repr == old(query.Repr)
    ensures forall o | o in S :: o in nodes || fresh(o)
    ensures err.None? <==> PassesAll(db, p, Entities(db, p))
    ensures err.None? ==>
              && p' == AfterLoad(db, p, Entities(db, p), |p.subs|)
              && AllShow(nodes, Load(db, p, Entities(db, p)), S)
    decreases Height(p), 0, 5
  {
    err, S, p' := None, {}, p;
    if nodes == [] {
      NothingLoaded(db, p);
      return;
    }
    if HasID(p.table) { EntitiesDistinct(db, p); }
    assert Ents(nodes) == Entities(db, p);
    ghost var edges, T;
    err, edges, T, p' := LoadAllEdges(query, db, nodes, p);
    S := (set n | n in nodes) + T;
    if err.None? { Assembled(db, p, nodes, edges, T, S); }
  }

  method SqlAll(query: Query, db: Database, byID: map<int, Node>, ghost p: Plan)
    returns (err: Option<Error>, nodes: seq<Node>, nids: map<int, set<Node>>, ghost S: set<object>, ghost p': Plan)
    requires query.Denotes(p) && WellTyped(p) && SubsLoadable(p) && ValidDatabase(db)
    requires p.joins != [] ==> Known(Hits(db, RequestOf(p)), byID)
    modifies query.Repr
    ensures query.Denotes(p') && query.Repr == old(query.Repr)
    ensures fresh(S)
    ensures err.None? <==> Reads(db, p) && PassesAll(db, p, Entities(db, p))
    ensures err.None? ==>
              && p' == AfterLoad(db, p, Entities(db, p), |p.subs|)
              && AllShow(nodes, Load(db, p, Entities(db, p)), S)
    ensures p.joins != [] && err.None? ==> nids == LinkMap(Hits(db, RequestOf(p)), byID)
    decreases Height(p), 1
  {
    S, p' := {}, p;
    err, nodes, nids := QueryNodes(query, db, byID, p);
    if err.Some? {
      return;
    }
    err, S, p' := LoadRows(query, db, nodes, p);
  }
}
