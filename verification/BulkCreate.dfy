/**
 What AccountCreateBulk.Save means: the chain of mutators, each wrapped by its builder's hooks, as one function
 (backend/ent/account_create.go:2095-2152).
 */
module BulkCreate {
  import opened Wrappers
  import opened Schema
  import opened AccountFields

  /** What a hook does once it has run its own code: pass the mutation on, refuse it, return success without passing it
      on, or pass it on and then fail. No hook swallows an error or calls the next mutator twice. */
  datatype Act = Pass | Veto | Skip | Fail

  /** A hook edits the mutation it is given or, if it swaps, a new one that it passes on in its place. */
  datatype Hook = Hook(edit: Draft -> Draft, swap: bool, act: Act)

  /** What a mutation holds. */
  datatype Mut = Mut(draft: Draft, id: Option<int>, done: bool)

  datatype Fault = Preset | Rejection(err: ValidationError) | Vetoed(i: nat, h: nat) | Failed(i: nat, h: nat) | Refused

  datatype Event =
    | Enter(i: nat, h: nat)       // hook h of builder i is called
    | Exit(i: nat, h: nat)        // and returns
    | Skipped(i: nat, h: nat)     // having returned success without passing the mutation on
    | Passed(i: nat)              // check accepts builder i
    | Rejected(i: nat)            // or not
    | Created(i: nat)             // createSpec of builder i
    | Insert(specs: seq<Spec>)    // BatchCreate
    | Finished(i: nat)            // the mutation of builder i is marked done

  /** The database's answer to a batch: the ids it reports, if any, or an error. */
  datatype Reply = Stored(ids: seq<Option<int>>) | Denied

  /** The hooks of every builder, its generated check and createSpec, and the database. */
  datatype Env = Env(
    hooks: seq<seq<Hook>>,
    check: Draft -> Option<ValidationError>, node: Draft -> Account, spec: Draft -> Spec,
    store: seq<Spec> -> Reply)

  /** The environment of the account builders. */
  function AccountEnv(hooks: seq<seq<Hook>>, store: seq<Spec> -> Reply): Env {
    Env(hooks, Checked, NodeOf, SpecOf, store)
  }

  /** Per builder: its current mutation, its node, its insert, and the id the database reported for it. */
  datatype State = State(muts: seq<Mut>, nodes: seq<Option<Account>>, specs: seq<Option<Spec>>, ids: seq<Option<int>>)

  datatype Outcome = Outcome(st: State, err: Option<Fault>, events: seq<Event>)

  /** Builders 0..i have a node and an insert. */
  predicate Ready(env: Env, st: State, i: nat) {
    && |st.muts| == |st.nodes| == |st.specs| == |st.ids| == |env.hooks| && i <= |env.hooks|
    && forall j | 0 <= j < i :: st.nodes[j].Some? && st.specs[j].Some?
  }

  /** Nothing about builders 0..i has changed. */
  predicate Kept(a: State, b: State, i: nat)
    requires |a.muts| == |a.nodes| == |a.specs| && |b.muts| == |b.nodes| == |b.specs|
    requires i <= |a.muts| && |a.muts| == |b.muts|
  {
    forall j | 0 <= j < i :: a.muts[j] == b.muts[j] && a.nodes[j] == b.nodes[j] && a.specs[j] == b.specs[j]
  }

  /** The mutation in flight: that of the builder itself, or one that a hook passed on in its place. */
  function InFlight(st: State, i: nat, f: Option<Mut>): Mut
    requires i < |st.muts|
  {
    if f.Some? then f.value else st.muts[i]
  }

  function PassedOn(st: State, i: nat, f: Option<Mut>, hook: Hook): Option<Mut>
    requires i < |st.muts|
  {
    var m := InFlight(st, i, f);
    if hook.swap then Some(Mut(hook.edit(m.draft), None, false))
    else if f.Some? then Some(m.(draft := hook.edit(m.draft)))
    else None
  }

  function Edited(st: State, i: nat, f: Option<Mut>, hook: Hook): State
    requires i < |st.muts|
  {
    if hook.swap || f.Some? then st
    else st.(muts := st.muts[i := st.muts[i].(draft := hook.edit(st.muts[i].draft))])
  }

  /** builder.mutation = mutation; nodes[i], specs[i] = builder.createSpec() */
  function WithSpec(env: Env, st: State, i: nat, m: Mut): State
    requires i < |st.muts| == |st.nodes| == |st.specs|
  {
    st.(muts := st.muts[i := m], nodes := st.nodes[i := Some(env.node(m.draft))],
        specs := st.specs[i := Some(env.spec(m.draft))])
  }

  function Batch(st: State): (specs: seq<Spec>)
    requires forall j | 0 <= j < |st.specs| :: st.specs[j].Some?
    ensures |specs| == |st.specs| && forall j | 0 <= j < |specs| :: specs[j] == st.specs[j].value
  {
    seq(|st.specs|, j requires 0 <= j < |st.specs| => st.specs[j].value)
  }

  function IDAt(ids: seq<Option<int>>, i: nat): Option<int> {
    if i < |ids| then ids[i] else None
  }

  /** BatchCreate, by the last mutator of the chain. */
  function StoreAll(env: Env, st: State): (r: Outcome)
    requires Ready(env, st, |env.hooks|)
    ensures Ready(env, r.st, |env.hooks|) && Kept(st, r.st, |env.hooks|)
  {
    match env.store(Batch(st))
    case Denied => Outcome(st, Some(Refused), [Insert(Batch(st))])
    case Stored(ids) => Outcome(st.(ids := seq(|st.ids|, j requires 0 <= j < |st.ids| => IDAt(ids, j))), None,
        [Insert(Batch(st))])
  }

  /** mutation.id = &nodes[i].ID; nodes[i].ID = the reported id; mutation.done = true */
  function Finish(st: State, i: nat): State
    requires i < |st.muts| == |st.nodes| == |st.ids| && st.nodes[i].Some?
  {
    var id := if st.ids[i].Some? then st.ids[i].value else st.nodes[i].value.id;
    st.(muts := st.muts[i := st.muts[i].(id := Some(id), done := true)],
        nodes := st.nodes[i := Some(st.nodes[i].value.(id := id))])
  }

  /** Mutator i, called with mutation f from its h-th hook inwards. */
  function Mutate(env: Env, st: State, i: nat, h: nat, f: Option<Mut>): (r: Outcome)
    requires Ready(env, st, i) && i < |env.hooks| && h <= |env.hooks[i]|
    ensures Ready(env, r.st, i) && Kept(st, r.st, i)
    decreases |env.hooks| - i, |env.hooks[i]| - h, 2
  {
    if h < |env.hooks[i]| then Hooked(env, st, i, h, f) else Core(env, st, i, f)
  }

  function Hooked(env: Env, st: State, i: nat, h: nat, f: Option<Mut>): (r: Outcome)
    requires Ready(env, st, i) && i < |env.hooks| && h < |env.hooks[i]|
    ensures Ready(env, r.st, i) && Kept(st, r.st, i)
    decreases |env.hooks| - i, |env.hooks[i]| - h, 1
  {
    var hook := env.hooks[i][h];
    var s, g := Edited(st, i, f, hook), PassedOn(st, i, f, hook);
    if hook.act.Veto? then Outcome(s, Some(Vetoed(i, h)), [Enter(i, h), Exit(i, h)])
    else if hook.act.Skip? then Outcome(s, None, [Enter(i, h), Skipped(i, h), Exit(i, h)])
    else
      var r := Mutate(env, s, i, h + 1, g);
      Outcome(r.st, if r.err.None? && hook.act.Fail? then Some(Failed(i, h)) else r.err,
          [Enter(i, h)] + r.events + [Exit(i, h)])
  }

  /** The mutator inside all hooks: check, createSpec, the rest of the chain, and the end. */
  function Core(env: Env, st: State, i: nat, f: Option<Mut>): (r: Outcome)
    requires Ready(env, st, i) && i < |env.hooks|
    ensures Ready(env, r.st, i) && Kept(st, r.st, i)
    decreases |env.hooks| - i, 0, 1
  {
    var checked := env.check(st.muts[i].draft);
    if checked.Some? then Outcome(st, Some(Rejection(checked.value)), [Rejected(i)])
    else Ended(env, Rest(env, WithSpec(env, st, i, InFlight(st, i, f)), i), i)
  }

  /** How mutator i ends once the rest of the chain has run. */
  function Ended(env: Env, r: Outcome, i: nat): Outcome
    requires i < |env.hooks| && Ready(env, r.st, i + 1)
  {
    if r.err.Some? then r.(events := [Passed(i), Created(i)] + r.events)
    else Outcome(Finish(r.st, i), None, [Passed(i), Created(i)] + r.events + [Finished(i)])
  }

  /** What mutator i does between its createSpec and its end: call the next mutator, or insert. */
  function Rest(env: Env, st: State, i: nat): (r: Outcome)
    requires i < |env.hooks| && Ready(env, st, i + 1)
    ensures Ready(env, r.st, i + 1) && Kept(st, r.st, i + 1)
    decreases |env.hooks| - i, 0, 0
  {
    if i + 1 < |env.hooks| then Mutate(env, st, i + 1, 0, None) else StoreAll(env, st)
  }

  /** The state once Save has called `defaults` on every builder, dropping its error. */
  function Start(muts: seq<Mut>, rts: seq<Runtime>): (st: State)
    requires |muts| == |rts|
    ensures |st.muts| == |st.nodes| == |st.specs| == |st.ids| == |muts|
  {
    State(seq(|muts|, i requires 0 <= i < |muts| => muts[i].(draft := Defaulted(muts[i].draft, rts[i]))),
          seq(|muts|, i => None), seq(|muts|, i => None), seq(|muts|, i => None))
  }

  /** Save: without builders nothing happens at all. */
  function Saved(env: Env, preset: bool, muts: seq<Mut>, rts: seq<Runtime>): Outcome
    requires |muts| == |rts| == |env.hooks|
  {
    if preset then Outcome(State(muts, seq(|muts|, i => None), seq(|muts|, i => None), seq(|muts|, i => None)),
        Some(Preset), [])
    else if muts == [] then Outcome(Start(muts, rts), None, [])
    else Mutate(env, Start(muts, rts), 0, 0, None)
  }

  // ---------------------------------------------------------------- how hooks nest

  /** Runs the events over a stack of hook calls: an Exit must close the call opened last. */
  function Close(stack: seq<Event>, events: seq<Event>): Option<seq<Event>>
    decreases |events|
  {
    if events == [] then Some(stack)
    else
      match events[0]
      case Enter(i, h) => Close(stack + [events[0]], events[1..])
      case Exit(i, h) =>
        if stack != [] && stack[|stack| - 1] == Enter(i, h) then Close(stack[..|stack| - 1], events[1..]) else None
      case _ => Close(stack, events[1..])
  }

  lemma {:induction false} CloseConcat(stack: seq<Event>, a: seq<Event>, b: seq<Event>)
    requires Close(stack, a).Some?
    ensures Close(stack, a + b) == Close(Close(stack, a).value, b)
    decreases |a|
  {
    if a == [] {
      assert a + b == b;
    } else {
      assert (a + b)[1..] == a[1..] + b;
      match a[0]
      case Enter(i, h) => CloseConcat(stack + [a[0]], a[1..], b);
      case Exit(i, h) => CloseConcat(stack[..|stack| - 1], a[1..], b);
      case _ => CloseConcat(stack, a[1..], b);
    }
  }

  /** Whatever the hooks do, their calls are well nested. */
  lemma {:induction false} HooksNest(env: Env, st: State, i: nat, h: nat, f: Option<Mut>, stack: seq<Event>)
    requires Ready(env, st, i) && i < |env.hooks| && h <= |env.hooks[i]|
    ensures Close(stack, Mutate(env, st, i, h, f).events) == Some(stack)
    decreases |env.hooks| - i, |env.hooks[i]| - h, 1
  {
    if h < |env.hooks[i]| {
      HookNests(env, st, i, h, f, stack);
    } else {
      CoreNests(env, st, i, f, stack);
    }
  }

  lemma {:induction false} HookNests(env: Env, st: State, i: nat, h: nat, f: Option<Mut>, stack: seq<Event>)
    requires Ready(env, st, i) && i < |env.hooks| && h < |env.hooks[i]|
    ensures Close(stack, Hooked(env, st, i, h, f).events) == Some(stack)
    decreases |env.hooks| - i, |env.hooks[i]| - h, 0
  {
    var hook := env.hooks[i][h];
    if hook.act.Pass? || hook.act.Fail? {
      var s, g := Edited(st, i, f, hook), PassedOn(st, i, f, hook);
      HooksNest(env, s, i, h + 1, g, stack + [Enter(i, h)]);
      Wrapped(stack, i, h, Mutate(env, s, i, h + 1, g).events);
    } else {
      CloseShort(stack, i, h);
    }
  }

  lemma {:induction false} CoreNests(env: Env, st: State, i: nat, f: Option<Mut>, stack: seq<Event>)
    requires Ready(env, st, i) && i < |env.hooks|
    ensures Close(stack, Core(env, st, i, f).events) == Some(stack)
    decreases |env.hooks| - i, 0, 0
  {
    if env.check(st.muts[i].draft).None? {
      var s := WithSpec(env, st, i, InFlight(st, i, f));
      if i + 1 < |env.hooks| { HooksNest(env, s, i + 1, 0, None, stack); }
      Unmoved(stack, i, Rest(env, s, i).events);
    }
  }

  lemma Unmoved(stack: seq<Event>, i: nat, mid: seq<Event>)
    requires Close(stack, mid) == Some(stack)
    ensures Close(stack, [Passed(i), Created(i)] + mid) == Some(stack)
    ensures Close(stack, [Passed(i), Created(i)] + mid + [Finished(i)]) == Some(stack)
  {
    CloseConcat(stack, mid, [Finished(i)]);
    assert ([Passed(i), Created(i)] + mid)[1..] == [Created(i)] + mid && ([Created(i)] + mid)[1..] == mid;
    assert ([Passed(i), Created(i)] + mid + [Finished(i)])[1..] == [Created(i)] + (mid + [Finished(i)]);
    assert ([Created(i)] + (mid + [Finished(i)]))[1..] == mid + [Finished(i)];
  }

  lemma Wrapped(stack: seq<Event>, i: nat, h: nat, mid: seq<Event>)
    requires Close(stack + [Enter(i, h)], mid) == Some(stack + [Enter(i, h)])
    ensures Close(stack, [Enter(i, h)] + mid + [Exit(i, h)]) == Some(stack)
  {
    assert ([Enter(i, h)] + mid + [Exit(i, h)])[1..] == mid + [Exit(i, h)];
    CloseConcat(stack + [Enter(i, h)], mid, [Exit(i, h)]);
    assert (stack + [Enter(i, h)])[..|stack|] == stack;
  }

  lemma CloseShort(stack: seq<Event>, i: nat, h: nat)
    ensures Close(stack, [Enter(i, h), Exit(i, h)]) == Some(stack)
    ensures Close(stack, [Enter(i, h), Skipped(i, h), Exit(i, h)]) == Some(stack)
  {
    Wrapped(stack, i, h, []);
    assert [Enter(i, h)] + [] + [Exit(i, h)] == [Enter(i, h), Exit(i, h)];
    assert Close(stack + [Enter(i, h)], [Skipped(i, h)]) == Some(stack + [Enter(i, h)]);
    Wrapped(stack, i, h, [Skipped(i, h)]);
    assert [Enter(i, h)] + [Skipped(i, h)] + [Exit(i, h)] == [Enter(i, h), Skipped(i, h), Exit(i, h)];
  }

  // ---------------------------------------------------------------- the trace of a pass-through save

  /** The way in: from hook h of builder i to the check of builder k, or to the insert if k is the number of
      builders. */
  function WayIn(hooks: seq<seq<Hook>>, i: nat, h: nat, k: nat): seq<Event>
    requires i <= k <= |hooks| && (i < |hooks| ==> h <= |hooks[i]|)
    decreases |hooks| - i, if i < |hooks| then |hooks[i]| - h else 0
  {
    if i == |hooks| then []
    else if h < |hooks[i]| then [Enter(i, h)] + WayIn(hooks, i, h + 1, k)
    else if i == k then []
    else [Passed(i), Created(i)] + WayIn(hooks, i + 1, 0, k)
  }

  /** What answers an event on the way out; on success every createSpec is answered by its mutation being marked
      done. */
  function Answer(e: Event, ok: bool): seq<Event> {
    match e
    case Enter(i, h) => [Exit(i, h)]
    case Created(i) => if ok then [Finished(i)] else []
    case _ => []
  }

  function Mirror(events: seq<Event>, ok: bool): seq<Event>
    decreases |events|
  {
    if events == [] then [] else Mirror(events[1..], ok) + Answer(events[0], ok)
  }

  predicate PassThrough(env: Env) {
    forall i, h | 0 <= i < |env.hooks| && 0 <= h < |env.hooks[i]| :: env.hooks[i][h].act.Pass?
  }

  /** The middle of a run: the insert, or the check that fails. */
  predicate Pivot(env: Env, k: nat, e: Event, err: Option<Fault>) {
    if k == |env.hooks| then e.Insert? && (err.None? <==> env.store(e.specs).Stored?)
    else e == Rejected(k) && err.Some?
  }

  /** A run that goes in from hook h of builder i to the check of builder k or to the insert, and out again. */
  ghost predicate Symmetric(env: Env, r: Outcome, i: nat, h: nat, k: nat, e: Event)
    requires i <= |env.hooks| && (i < |env.hooks| ==> h <= |env.hooks[i]|)
  {
    && i <= k <= |env.hooks|
    && Pivot(env, k, e, r.err)
    && r.events == WayIn(env.hooks, i, h, k) + [e] + Mirror(WayIn(env.hooks, i, h, k), r.err.None?)
  }

  /** With pass-through hooks a run is the way in to some builder's check or to the insert, that event, and the mirror
      image of the way in. */
  lemma {:induction false} PassThroughTrace(env: Env, st: State, i: nat, h: nat, f: Option<Mut>)
    returns (k: nat, e: Event)
    requires Ready(env, st, i) && i < |env.hooks| && h <= |env.hooks[i]| && PassThrough(env)
    ensures Symmetric(env, Mutate(env, st, i, h, f), i, h, k, e)
    decreases |env.hooks| - i, |env.hooks[i]| - h, 1
  {
    if h < |env.hooks[i]| {
      var hook := env.hooks[i][h];
      var s, g := Edited(st, i, f, hook), PassedOn(st, i, f, hook);
      k, e := PassThroughTrace(env, s, i, h + 1, g);
      Around(Enter(i, h), WayIn(env.hooks, i, h + 1, k), e, Mutate(env, s, i, h + 1, g).err.None?);
    } else {
      k, e := CoreTrace(env, st, i, f);
    }
  }

  lemma {:induction false} CoreTrace(env: Env, st: State, i: nat, f: Option<Mut>) returns (k: nat, e: Event)
    requires Ready(env, st, i) && i < |env.hooks| && PassThrough(env)
    ensures Symmetric(env, Core(env, st, i, f), i, |env.hooks[i]|, k, e)
    decreases |env.hooks| - i, 0, 0
  {
    if env.check(st.muts[i].draft).Some? {
      k, e := i, Rejected(i);
    } else {
      var s := WithSpec(env, st, i, InFlight(st, i, f));
      if i + 1 < |env.hooks| {
        k, e := PassThroughTrace(env, s, i + 1, 0, None);
      } else {
        k, e := |env.hooks|, Insert(Batch(s));
        assert WayIn(env.hooks, i + 1, 0, k) == [];
      }
      EndedTrace(env, Rest(env, s, i), i, k, e);
    }
  }

  lemma EndedTrace(env: Env, r: Outcome, i: nat, k: nat, e: Event)
    requires i < |env.hooks| && Ready(env, r.st, i + 1) && Symmetric(env, r, i + 1, 0, k, e)
    ensures Symmetric(env, Ended(env, r, i), i, |env.hooks[i]|, k, e)
  {
    AroundCore(i, WayIn(env.hooks, i + 1, 0, k), e, r.err.None?);
  }

  lemma Around(a: Event, way: seq<Event>, e: Event, ok: bool)
    ensures ([a] + way) + [e] + Mirror([a] + way, ok) == [a] + (way + [e] + Mirror(way, ok)) + Answer(a, ok)
  {
    assert ([a] + way)[1..] == way;
  }

  lemma AroundCore(i: nat, way: seq<Event>, e: Event, ok: bool)
    ensures var all := [Passed(i), Created(i)] + way;
              all + [e] + Mirror(all, ok) ==
              [Passed(i), Created(i)] + (way + [e] + Mirror(way, ok)) + (if ok then [Finished(i)] else [])
  {
    Around(Created(i), way, e, ok);
    Around(Passed(i), [Created(i)] + way, e, ok);
    assert [Passed(i)] + ([Created(i)] + way) == [Passed(i), Created(i)] + way;
  }
}
