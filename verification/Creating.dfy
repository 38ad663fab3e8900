/**
 The create builders as the objects the code keeps them in: defaults, check, createSpec, and the bulk save that runs
 its builders' mutators as one chain (backend/ent/account_create.go:526-904, :2095-2152).
 */
module Creating {
  import opened Wrappers
  import opened Schema
  import opened AccountFields
  import opened BulkCreate
  import opened SingleCreate

  class AccountMutation {
    var draft: Draft
    var id: Option<int>
    var done: bool

    constructor (draft: Draft)
      ensures Contents() == Mut(draft, None, false)
    {
      this.draft, id, done := draft, None, false;
    }

    ghost function Contents(): Mut
      reads this
    {
      Mut(draft, id, done)
    }
  }

  class AccountCreate {
    var mutation: AccountMutation
    const hooks: seq<Hook>
    const nilHook: bool // some hook of the builder's list is nil: the runtime package is not imported

    constructor (mutation: AccountMutation, hooks: seq<Hook>, nilHook: bool)
      ensures this.mutation == mutation && this.hooks == hooks && this.nilHook == nilHook
    {
      this.mutation, this.hooks, this.nilHook := mutation, hooks, nilHook;
    }

    /** Sets what is unset; the first default that is not initialized ends it with an error. */
    method Defaults(rt: Runtime) returns (err: Option<Field>)
      modifies mutation`draft
      ensures mutation.draft == Defaulted(old(mutation.draft), rt) && err == DefaultError(old(mutation.draft), rt)
    {
      var ds := DefaultTable(rt);
      ghost var was := mutation.draft;
      var i := 0;
      while i < |ds|
        invariant 0 <= i <= |ds|
        invariant Fill(was.fields, ds, i) == Filled(mutation.draft.fields, None)
        invariant mutation.draft == was.(fields := mutation.draft.fields)
      {
        if ds[i].field !in mutation.draft.fields {
          if ds[i].value.None? {
            FillGrows(was.fields, ds, i + 1, |ds|);
            return Some(ds[i].field);
          }
          mutation.draft := mutation.draft.(fields := mutation.draft.fields[ds[i].field := ds[i].value.value]);
        }
        i := i + 1;
      }
      err := None;
    }

    method Check() returns (err: Option<ValidationError>)
      ensures err == Checked(mutation.draft)
    {
      var rs := Rules();
      var i := 0;
      while i < |rs|
        invariant 0 <= i <= |rs|
        invariant FirstViolation(mutation.draft.fields, rs, i) == None
      {
        err := Violation(mutation.draft.fields, rs[i]);
        if err.Some? {
          FirstStays(mutation.draft.fields, rs, i + 1, |rs|);
          return;
        }
        i := i + 1;
      }
      err := None;
    }

    /** The fields of the account and of the insert, side by side. */
    method SetFields(order: seq<Field>) returns (fields: seq<FieldSpec>, cells: map<Column, Datum>)
      ensures fields == FieldSpecs(mutation.draft.fields, order)
      ensures (forall f :: f in order) ==> cells == FieldCells(mutation.draft.fields)
    {
      var set' := mutation.draft.fields;
      fields, cells := [], map[];
      var i := 0;
      while i < |order|
        invariant 0 <= i <= |order|
        invariant fields == FieldSpecs(set', order[..i])
        invariant forall c :: c in cells <==> c.Plain? && c.f in set' && c.f in order[..i]
        invariant forall c | c in cells :: cells[c] == set'[c.f]
      {
        var f := order[i];
        assert order[..i + 1] == order[..i] + [f];
        if f in set' {
          fields := fields + [FieldSpec(f, set'[f])];
          cells := cells[Column.Plain(f) := set'[f]];
        }
        i := i + 1;
      }
      assert order[..i] == order;
    }

    /** The foreign keys of the account and the edges of the insert. */
    method SetEdges(cells: map<Column, Datum>) returns (edges: seq<EdgeSpec>, all: map<Column, Datum>)
      ensures edges == EdgeSpecs(mutation.draft)
      ensures all == cells + RefCell(ProxyID, mutation.draft.proxy) + RefCell(ParentAccountID, mutation.draft.parent)
    {
      var d := mutation.draft;
      all := cells;
      edges := EdgeIf(0, d.groups) + EdgeIf(1, IDList(d.proxy));
      if d.proxy.Some? {
        all := all[Ref(ProxyID) := Num(d.proxy.value)];
      }
      edges := edges + EdgeIf(2, IDList(d.parent));
      if d.parent.Some? {
        all := all[Ref(ParentAccountID) := Num(d.parent.value)];
      }
      edges := edges + EdgeIf(3, d.children) + EdgeIf(4, d.usageLogs);
    }

    method CreateSpec() returns (node: Account, spec: Spec)
      ensures node == NodeOf(mutation.draft) && spec == SpecOf(mutation.draft)
    {
      EveryFieldOnce();
      var fields, cells := SetFields(AllFields());
      var edges, all := SetEdges(cells);
      node, spec := Account(0, all), Spec(fields, edges);
    }

    ghost function Env1(store: seq<Spec> -> Reply): Env {
      AccountEnv([hooks], store)
    }

    method SqlSave(store: seq<Spec> -> Reply)
      returns (value: Option<Account>, err: Option<Fault>, ghost events: seq<Event>)
      modifies mutation
      ensures Result1(mutation.Contents(), value, err, events) ==
              SingleCreate.SqlSave(Env1(store), old(mutation.Contents()))
    {
      var checked := Check();
      if checked.Some? {
        return None, Some(Rejection(checked.value)), [Rejected(0)];
      }
      var node, spec := CreateSpec();
      events := [Passed(0), Created(0), Insert([spec])];
      match store([spec]) {
        case Denied => value, err := None, Some(Refused);
        case Stored(ids) =>
          var id := IDAt(ids, 0).GetOr(0);
          mutation.id, mutation.done := Some(id), true;
          value, err := Some(node.(id := id)), None;
          events := [Passed(0), Created(0), Insert([spec]), Finished(0)];
      }
    }

    /** The mutator inside the hooks from h on. */
    method Wrapped(h: nat, m: AccountMutation, store: seq<Spec> -> Reply, ghost f: Option<Mut>)
      returns (value: Option<Account>, err: Option<Fault>, ghost events: seq<Event>)
      requires h <= |hooks| && if f.None? then m == mutation else m != mutation && m.Contents() == f.value
      modifies mutation, m
      ensures Result1(mutation.Contents(), value, err, events) ==
              Single(Env1(store), hooks, old(mutation.Contents()), h, f)
      decreases |hooks| - h
    {
      if h == |hooks| {
        mutation.draft, mutation.id, mutation.done := m.draft, m.id, m.done;
        value, err, events := SqlSave(store);
        return;
      }
      var hook, next := hooks[h], m;
      ghost var g := f;
      if hook.swap {
        next := new AccountMutation(hook.edit(m.draft));
        g := Some(next.Contents());
      } else {
        m.draft := hook.edit(m.draft);
        g := if f.Some? then Some(m.Contents()) else None;
      }
      if hook.act.Veto? {
        return None, Some(Vetoed(0, h)), [Enter(0, h), Exit(0, h)];
      }
      if hook.act.Skip? {
        return None, None, [Enter(0, h), Skipped(0, h), Exit(0, h)];
      }
      ghost var mid;
      value, err, mid := Wrapped(h + 1, next, store, g);
      if err.None? && hook.act.Fail? {
        err := Some(Failed(0, h));
      }
      events := [Enter(0, h)] + mid + [Exit(0, h)];
    }

    method WithHooks(store: seq<Spec> -> Reply)
      returns (value: Option<Account>, err: Option<SingleFault>, ghost events: seq<Event>)
      modifies mutation
      ensures (mutation.Contents(), value, err, events) ==
              SingleCreate.WithHooks(Env1(store), hooks, nilHook, old(mutation.Contents()))
    {
      if nilHook {
        return None, Some(NilHook), [];
      }
      var fault;
      value, fault, events := Wrapped(0, mutation, store, None);
      if fault.Some? {
        return None, Some(In(fault.value)), events;
      }
      err := if value.None? then Some(UnexpectedNode) else None;
    }

    method Save(rt: Runtime, store: seq<Spec> -> Reply)
      returns (value: Option<Account>, err: Option<SingleFault>, ghost events: seq<Event>)
      modifies mutation
      ensures (mutation.Contents(), value, err, events) ==
              SavedAlone(Env1(store), hooks, nilHook, old(mutation.Contents()), rt)
    {
      var unset := Defaults(rt);
      if unset.Some? {
        return None, Some(Uninitialized(unset.value)), [];
      }
      value, err, events := WithHooks(store);
    }
  }

  lemma {:induction false} FirstStays(fields: map<Field, Datum>, rs: seq<Rule>, n: nat, m: nat)
    requires n <= m <= |rs| && FirstViolation(fields, rs, n).Some?
    ensures FirstViolation(fields, rs, m) == FirstViolation(fields, rs, n)
  {
    if n != m { FirstStays(fields, rs, n, m - 1); }
  }

  /** The slices of a bulk save, one element per builder: nodes, specs, and the ID value of each spec. */
  class Slices {
    const nodes: array<Option<Account>>
    const specs: array<Option<Spec>>
    const ids: array<Option<int>>

    constructor (n: nat)
      ensures fresh(nodes) && fresh(specs) && fresh(ids)
      ensures nodes[..] == seq(n, i => None) && specs[..] == seq(n, i => None) && ids[..] == seq(n, i => None)
    {
      nodes, specs, ids := new Option<Account>[n](_ => None), new Option<Spec>[n](_ => None),
          new Option<int>[n](_ => None);
    }
  }

  class AccountCreateBulk {
    const preset: bool // the builder carries an error
    const builders: seq<AccountCreate>

    constructor (preset: bool, builders: seq<AccountCreate>)
      ensures this.preset == preset && this.builders == builders
    {
      this.preset, this.builders := preset, builders;
    }

    /** Every builder has a mutation of its own. */
    ghost predicate Separate()
      reads builders
    {
      forall i, j | 0 <= i < j < |builders| :: builders[i] != builders[j]
          && builders[i].mutation != builders[j].mutation
    }

    ghost function Mutations(): set<AccountMutation>
      reads builders
    {
      set b | b in builders :: b.mutation
    }

    ghost function Muts(): (ms: seq<Mut>)
      reads builders, Mutations()
      ensures |ms| == |builders| && forall i | 0 <= i < |ms| :: ms[i] == builders[i].mutation.Contents()
    {
      seq(|builders|, i requires 0 <= i < |builders| reads builders, Mutations() => builders[i].mutation.Contents())
    }

    ghost function View(s: Slices): State
      reads s.nodes, s.specs, s.ids, builders, Mutations()
    {
      State(Muts(), s.nodes[..], s.specs[..], s.ids[..])
    }

    ghost function EnvOf(store: seq<Spec> -> Reply): (env: Env)
      ensures |env.hooks| == |builders| && forall i | 0 <= i < |builders| :: env.hooks[i] == builders[i].hooks
    {
      AccountEnv(seq(|builders|, i requires 0 <= i < |builders| => builders[i].hooks), store)
    }

    /** The mutation in flight is the builder's own, or one that no builder holds. */
    ghost predicate Flying(i: nat, m: AccountMutation, f: Option<Mut>)
      requires i < |builders|
      reads builders, m
    {
      if f.None? then m == builders[i].mutation
      else f.value == m.Contents() && forall j | 0 <= j < |builders| :: builders[j].mutation != m
    }

    ghost predicate Stays(i: nat, ms: seq<AccountMutation>)
      requires i <= |builders| == |ms|
      reads builders
    {
      forall j | 0 <= j < i :: builders[j].mutation == ms[j]
    }

    ghost function Held(): (ms: seq<AccountMutation>)
      reads builders
      ensures |ms| == |builders| && forall i | 0 <= i < |ms| :: ms[i] == builders[i].mutation
    {
      seq(|builders|, i requires 0 <= i < |builders| reads builders => builders[i].mutation)
    }

    method Mutate(i: nat, h: nat, m: AccountMutation, s: Slices, store: seq<Spec> -> Reply, ghost f: Option<Mut>)
      returns (err: Option<Fault>, ghost events: seq<Event>)
      requires i < |builders| && h <= |builders[i].hooks|
      requires Separate() && Flying(i, m, f) && Ready(EnvOf(store), View(s), i)
      modifies s.nodes, s.specs, s.ids, builders, Mutations(), m
      ensures Separate() && Stays(i, old(Held()))
      ensures Outcome(View(s), err, events) == BulkCreate.Mutate(EnvOf(store), old(View(s)), i, h, f)
      decreases |builders| - i, |builders[i].hooks| - h, 3
    {
      if h < |builders[i].hooks| {
        err, events := Hooked(i, h, m, s, store, f);
      } else {
        err, events := Core(i, m, s, store, f);
      }
    }

    /** The mutation a hook passes on: the one it was given, edited, or a new one in its place. */
    method Edit(i: nat, hook: Hook, m: AccountMutation, ghost s: Slices, ghost f: Option<Mut>)
      returns (next: AccountMutation)
      requires i < |builders| && Separate() && Flying(i, m, f)
      modifies m
      ensures next == m || fresh(next)
      ensures Flying(i, next, PassedOn(old(View(s)), i, f, hook))
      ensures View(s) == Edited(old(View(s)), i, f, hook)
    {
      next := m;
      if hook.swap {
        next := new AccountMutation(hook.edit(m.draft));
      } else {
        m.draft := hook.edit(m.draft);
      }
      assert View(s).muts == Edited(old(View(s)), i, f, hook).muts;
    }

    /** One hook around the mutator. */
    method Hooked(i: nat, h: nat, m: AccountMutation, s: Slices, store: seq<Spec> -> Reply, ghost f: Option<Mut>)
      returns (err: Option<Fault>, ghost events: seq<Event>)
      requires i < |builders| && h < |builders[i].hooks|
      requires Separate() && Flying(i, m, f) && Ready(EnvOf(store), View(s), i)
      modifies s.nodes, s.specs, s.ids, builders, Mutations(), m
      ensures Separate() && Stays(i, old(Held()))
      ensures Outcome(View(s), err, events) == BulkCreate.Hooked(EnvOf(store), old(View(s)), i, h, f)
      decreases |builders| - i, |builders[i].hooks| - h, 1
    {
      var hook := builders[i].hooks[h];
      ghost var g := PassedOn(View(s), i, f, hook);
      var next := Edit(i, hook, m, s, f);
      if hook.act.Veto? {
        return Some(Vetoed(i, h)), [Enter(i, h), Exit(i, h)];
      }
      if hook.act.Skip? {
        return None, [Enter(i, h), Skipped(i, h), Exit(i, h)];
      }
      ghost var mid;
      err, mid := Mutate(i, h + 1, next, s, store, g);
      if err.None? && hook.act.Fail? {
        err := Some(Failed(i, h));
      }
      events := [Enter(i, h)] + mid + [Exit(i, h)];
    }

    /** builder.mutation = mutation */
    method Adopt(i: nat, m: AccountMutation, ghost f: Option<Mut>)
      requires i < |builders| && Separate() && Flying(i, m, f)
      modifies builders[i]
      ensures Separate() && builders[i].mutation == m && Stays(i, old(Held())) && Mutations() <= old(Mutations()) + {m}
      ensures Muts() == old(Muts())[i := if f.Some? then f.value else old(Muts())[i]]
    {
      builders[i].mutation := m;
    }

    /** nodes[i], specs[i] = builder.createSpec() */
    method Describe(i: nat, s: Slices, ghost env: Env)
      requires i < |builders| == s.nodes.Length == s.specs.Length
      requires env.node == NodeOf && env.spec == SpecOf
      modifies s.nodes, s.specs
      ensures s.nodes[..] == old(s.nodes[..])[i := Some(env.node(builders[i].mutation.draft))]
      ensures s.specs[..] == old(s.specs[..])[i := Some(env.spec(builders[i].mutation.draft))]
      ensures Muts() == old(Muts()) && s.ids[..] == old(s.ids[..])
    {
      var node, spec := builders[i].CreateSpec();
      s.nodes[i], s.specs[i] := Some(node), Some(spec);
    }

    method Attach(i: nat, m: AccountMutation, s: Slices, ghost env: Env, ghost f: Option<Mut>)
      requires i < |builders| && Separate() && Flying(i, m, f) && s.nodes.Length == s.specs.Length == |builders|
      requires env.node == NodeOf && env.spec == SpecOf
      modifies s.nodes, s.specs, builders[i]
      ensures Separate() && builders[i].mutation == m && Stays(i, old(Held())) && Mutations() <= old(Mutations()) + {m}
      ensures View(s) == WithSpec(env, old(View(s)), i, InFlight(old(View(s)), i, f))
    {
      Adopt(i, m, f);
      Describe(i, s, env);
    }

    /** mutation.id = &nodes[i].ID; nodes[i].ID = the reported id; mutation.done = true */
    method Mark(i: nat, m: AccountMutation, s: Slices)
      requires i < |builders| && Separate() && builders[i].mutation == m
      requires s.nodes.Length == s.ids.Length == |builders| && s.nodes[i].Some?
      modifies s.nodes, m
      ensures View(s) == Finish(old(View(s)), i)
    {
      var id := if s.ids[i].Some? then s.ids[i].value else s.nodes[i].value.id;
      s.nodes[i] := Some(s.nodes[i].value.(id := id));
      m.id, m.done := Some(id), true;
    }

    /** The mutator proper. */
    method Core(i: nat, m: AccountMutation, s: Slices, store: seq<Spec> -> Reply, ghost f: Option<Mut>)
      returns (err: Option<Fault>, ghost events: seq<Event>)
      requires i < |builders|
      requires Separate() && Flying(i, m, f) && Ready(EnvOf(store), View(s), i)
      modifies s.nodes, s.specs, s.ids, builders, Mutations(), m
      ensures Separate() && Stays(i, old(Held()))
      ensures Outcome(View(s), err, events) == BulkCreate.Core(EnvOf(store), old(View(s)), i, f)
      decreases |builders| - i, 0, 2
    {
      var checked := builders[i].Check();
      if checked.Some? {
        return Some(Rejection(checked.value)), [Rejected(i)];
      }
      Attach(i, m, s, EnvOf(store), f);
      err, events := Continue(i, m, s, store);
    }

    method Continue(i: nat, m: AccountMutation, s: Slices, store: seq<Spec> -> Reply)
      returns (err: Option<Fault>, ghost events: seq<Event>)
      requires i < |builders| && Separate() && builders[i].mutation == m && Ready(EnvOf(store), View(s), i + 1)
      modifies s.nodes, s.specs, s.ids, builders, Mutations()
      ensures Separate() && Stays(i, old(Held()))
      ensures Outcome(View(s), err, events) == Ended(EnvOf(store), BulkCreate.Rest(EnvOf(store), old(View(s)), i), i)
      decreases |builders| - i, 0, 1
    {
      ghost var mid;
      err, mid := Rest(i, s, store);
      events := [Passed(i), Created(i)] + mid;
      if err.None? {
        Mark(i, m, s);
        events := events + [Finished(i)];
      }
    }

    /** The next mutator or, after the last, the insert. */
    method Rest(i: nat, s: Slices, store: seq<Spec> -> Reply) returns (err: Option<Fault>, ghost events: seq<Event>)
      requires i < |builders| && Separate() && Ready(EnvOf(store), View(s), i + 1)
      modifies s.nodes, s.specs, s.ids, builders, Mutations()
      ensures Separate() && Stays(i + 1, old(Held()))
      ensures Outcome(View(s), err, events) == BulkCreate.Rest(EnvOf(store), old(View(s)), i)
      decreases |builders| - i, 0, 0
    {
      if i + 1 < |builders| {
        err, events := Mutate(i + 1, 0, builders[i + 1].mutation, s, store, None);
      } else {
        var batch := Collect(s.specs);
        assert batch == Batch(View(s));
        var reply := store(batch);
        events := [Insert(batch)];
        match reply {
          case Denied => err := Some(Refused);
          case Stored(ids) =>
            SetIDs(s.ids, ids);
            err := None;
        }
      }
    }

    /** The inserts of the batch. */
    method Collect(specs: array<Option<Spec>>) returns (batch: seq<Spec>)
      requires forall j | 0 <= j < specs.Length :: specs[j].Some?
      ensures |batch| == specs.Length && forall j | 0 <= j < |batch| :: batch[j] == specs[j].value
    {
      batch := [];
      var j := 0;
      while j < specs.Length
        invariant 0 <= j <= specs.Length && |batch| == j
        invariant forall k | 0 <= k < j :: batch[k] == specs[k].value
      {
        batch := batch + [specs[j].value];
        j := j + 1;
      }
    }

    /** The database's ids, written into the specs. */
    method SetIDs(ids: array<Option<int>>, reported: seq<Option<int>>)
      modifies ids
      ensures ids[..] == seq(ids.Length, j requires 0 <= j < ids.Length => IDAt(reported, j))
    {
      var j := 0;
      while j < ids.Length
        invariant 0 <= j <= ids.Length
        invariant forall k | 0 <= k < j :: ids[k] == IDAt(reported, k)
      {
        ids[j] := IDAt(reported, j);
        j := j + 1;
      }
    }

    /** Save's first loop: the defaults of every builder; their error is dropped. */
    method DefaultAll(rts: seq<Runtime>)
      requires Separate() && |rts| == |builders|
      modifies Mutations()
      ensures Muts() == Start(old(Muts()), rts).muts
    {
      ghost var was := Muts();
      var i := 0;
      while i < |builders|
        invariant 0 <= i <= |builders|
        invariant forall j | 0 <= j < |builders| ::
          builders[j].mutation.Contents() == if j < i then was[j].(draft := Defaulted(was[j].draft, rts[j])) else was[j]
      {
        var ignored := builders[i].Defaults(rts[i]);
        i := i + 1;
      }
    }

    /** Save; `rts` is what the default functions return for each builder. A nil hook would end the program. */
    method Save(rts: seq<Runtime>, store: seq<Spec> -> Reply)
      returns (nodes: seq<Option<Account>>, err: Option<Fault>, ghost events: seq<Event>)
      requires Separate() && |rts| == |builders| && (preset || forall b | b in builders :: !b.nilHook)
      modifies builders, Mutations()
      ensures Separate()
      ensures var r := Saved(EnvOf(store), preset, old(Muts()), rts);
                err == r.err && events == r.events && Muts() == r.st.muts
                    && nodes == if err.None? then r.st.nodes else []
    {
      nodes, err, events := [], None, [];
      if preset {
        return [], Some(Preset), [];
      }
      var s := new Slices(|builders|);
      DefaultAll(rts);
      if |builders| > 0 {
        assert View(s) == Start(old(Muts()), rts);
        err, events := Mutate(0, 0, builders[0].mutation, s, store, None);
        if err.Some? {
          return [], err, events;
        }
      }
      nodes := s.nodes[..];
    }
  }
}
