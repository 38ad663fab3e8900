/**
 What a bulk save guarantees: one insert or none, of everything or of nothing, and only of what was checked
 (backend/ent/account_create.go:2095-2152).
 */
module BulkGuarantees {
  import opened Wrappers
  import opened Schema
  import opened AccountFields
  import opened BulkCreate

  // ---------------------------------------------------------------- reading a trace

  /** The batches that were inserted, in order. */
  function Inserts(es: seq<Event>): seq<seq<Spec>> {
    if es == [] then []
    else
      var before := Inserts(es[..|es| - 1]);
      if es[|es| - 1].Insert? then before + [es[|es| - 1].specs] else before
  }

  /** The builders that check had accepted before the first insert. */
  function Cleared(es: seq<Event>): set<nat> {
    if es == [] then {}
    else
      var front, last := es[..|es| - 1], es[|es| - 1];
      Cleared(front) + (if last.Passed? && Inserts(front) == [] then {last.i} else {})
  }

  /** Some hook returned success without passing its mutation on. */
  predicate Skips(es: seq<Event>) {
    exists i | 0 <= i < |es| :: es[i].Skipped?
  }

  lemma {:induction false} Joined(a: seq<Event>, b: seq<Event>)
    ensures Inserts(a + b) == Inserts(a) + Inserts(b)
    ensures Cleared(a + b) == Cleared(a) + (if Inserts(a) == [] then Cleared(b) else {})
    ensures Skips(a + b) <==> Skips(a) || Skips(b)
  {
    if b == [] {
      assert a + b == a;
    } else {
      Joined(a, b[..|b| - 1]);
      assert (a + b)[..|a + b| - 1] == a + b[..|b| - 1];
      JoinedSkips(a, b);
    }
  }

  lemma JoinedSkips(a: seq<Event>, b: seq<Event>)
    ensures Skips(a + b) <==> Skips(a) || Skips(b)
  {
    if Skips(a) {
      var i :| 0 <= i < |a| && a[i].Skipped?;
      assert (a + b)[i] == a[i];
    }
    if Skips(b) {
      var i :| 0 <= i < |b| && b[i].Skipped?;
      assert (a + b)[|a| + i] == b[i];
    }
  }

  lemma One(e: Event)
    ensures Inserts([e]) == if e.Insert? then [e.specs] else []
    ensures Cleared([e]) == if e.Passed? then {e.i} else {}
    ensures Skips([e]) <==> e.Skipped?
  {
    assert [e][..0] == [];
    assert e.Skipped? ==> [e][0].Skipped?;
  }

  /** A hook's own events say nothing about inserts and checks. */
  lemma HookEvents(i: nat, h: nat, mid: seq<Event>)
    ensures var es := [Enter(i, h)] + mid + [Exit(i, h)];
              Inserts(es) == Inserts(mid) && Cleared(es) == Cleared(mid) && (Skips(es) <==> Skips(mid))
  {
    One(Enter(i, h));
    One(Exit(i, h));
    Joined([Enter(i, h)], mid);
    Joined([Enter(i, h)] + mid, [Exit(i, h)]);
  }

  lemma CoreEvents(i: nat, mid: seq<Event>)
    ensures var es := [Passed(i), Created(i)] + mid;
              && Inserts(es) == Inserts(mid) && Cleared(es) == {i} + Cleared(mid) && (Skips(es) <==> Skips(mid))
              && Inserts(es + [Finished(i)]) == Inserts(es) && Cleared(es + [Finished(i)]) == Cleared(es)
              && (Skips(es + [Finished(i)]) <==> Skips(es))
  {
    var start := [Passed(i), Created(i)];
    assert start == [Passed(i)] + [Created(i)];
    One(Passed(i));
    One(Created(i));
    One(Finished(i));
    Joined([Passed(i)], [Created(i)]);
    Joined(start, mid);
    Joined(start + mid, [Finished(i)]);
  }

  /** What a mutator does after the rest of the chain adds no insert and edits no draft. */
  lemma EndedKeeps(env: Env, r: Outcome, i: nat)
    requires i < |env.hooks| && Ready(env, r.st, i + 1)
    ensures Inserts(Ended(env, r, i).events) == Inserts(r.events) && (Ended(env, r, i).err.None? <==> r.err.None?)
    ensures |Ended(env, r, i).st.muts| == |env.hooks|
    ensures forall j | 0 <= j < |env.hooks| :: Ended(env, r, i).st.muts[j].draft == r.st.muts[j].draft
  {
    CoreEvents(i, r.events);
  }

  lemma LastInserts(env: Env, st: State, i: nat)
    requires i + 1 == |env.hooks| && Ready(env, st, i + 1)
    ensures Inserts(Rest(env, st, i).events) == [Batch(st)]
    ensures forall j | 0 <= j < |env.hooks| :: Rest(env, st, i).st.muts[j] == st.muts[j]
  {
    One(Insert(Batch(st)));
  }

  // ---------------------------------------------------------------- one insert, of everything

  /** Builder j's insert is the one for what its mutation now holds. */
  predicate Current(env: Env, st: State, j: nat)
    requires j < |st.specs| == |st.muts|
  {
    st.specs[j] == Some(env.spec(st.muts[j].draft))
  }

  /** At most one insert, after the checks of all builders from i on have passed, with the inserts of all builders in
      order; and a run that succeeds has inserted exactly if no hook skipped. */
  ghost predicate OneInsert(env: Env, r: Outcome, i: nat)
    requires Ready(env, r.st, i)
  {
    && |Inserts(r.events)| <= 1
    && (Inserts(r.events) != [] ==>
          && Ready(env, r.st, |env.hooks|)
          && Inserts(r.events)[0] == Batch(r.st)
          && forall j | i <= j < |env.hooks| :: j in Cleared(r.events) && Current(env, r.st, j))
    && (r.err.None? ==>
          && (Inserts(r.events) != [] <==> !Skips(r.events))
          && (Inserts(r.events) != [] ==> env.store(Inserts(r.events)[0]).Stored?))
  }

  lemma {:induction false} AtMostOneInsert(env: Env, st: State, i: nat, h: nat, f: Option<Mut>)
    requires Ready(env, st, i) && i < |env.hooks| && h <= |env.hooks[i]|
    ensures OneInsert(env, Mutate(env, st, i, h, f), i)
    decreases |env.hooks| - i, |env.hooks[i]| - h, 1
  {
    if h < |env.hooks[i]| {
      HookInsert(env, st, i, h, f);
    } else {
      CoreInsert(env, st, i, f);
    }
  }

  lemma {:induction false} HookInsert(env: Env, st: State, i: nat, h: nat, f: Option<Mut>)
    requires Ready(env, st, i) && i < |env.hooks| && h < |env.hooks[i]|
    ensures OneInsert(env, Hooked(env, st, i, h, f), i)
    decreases |env.hooks| - i, |env.hooks[i]| - h, 0
  {
    var hook := env.hooks[i][h];
    NoInsert(i, h);
    if hook.act.Pass? || hook.act.Fail? {
      var s, g := Edited(st, i, f, hook), PassedOn(st, i, f, hook);
      AtMostOneInsert(env, s, i, h + 1, g);
      HookEvents(i, h, Mutate(env, s, i, h + 1, g).events);
    }
  }

  lemma NoInsert(i: nat, h: nat)
    ensures Inserts([Enter(i, h), Exit(i, h)]) == [] && Inserts([Enter(i, h), Skipped(i, h), Exit(i, h)]) == []
    ensures Skips([Enter(i, h), Skipped(i, h), Exit(i, h)])
  {
    One(Skipped(i, h));
    HookEvents(i, h, []);
    HookEvents(i, h, [Skipped(i, h)]);
    assert [Enter(i, h)] + [] + [Exit(i, h)] == [Enter(i, h), Exit(i, h)];
    assert [Enter(i, h)] + [Skipped(i, h)] + [Exit(i, h)] == [Enter(i, h), Skipped(i, h), Exit(i, h)];
  }

  lemma {:induction false} CoreInsert(env: Env, st: State, i: nat, f: Option<Mut>)
    requires Ready(env, st, i) && i < |env.hooks|
    ensures OneInsert(env, Core(env, st, i, f), i)
    decreases |env.hooks| - i, 0, 0
  {
    if env.check(st.muts[i].draft).Some? {
      One(Rejected(i));
    } else {
      var s := WithSpec(env, st, i, InFlight(st, i, f));
      if i + 1 < |env.hooks| {
        AtMostOneInsert(env, s, i + 1, 0, None);
      } else {
        One(Insert(Batch(s)));
      }
      EndedInsert(env, s, Rest(env, s, i), i);
    }
  }

  lemma EndedInsert(env: Env, s: State, r: Outcome, i: nat)
    requires i < |env.hooks| && Ready(env, s, i + 1) && Current(env, s, i) && r == Rest(env, s, i)
    requires OneInsert(env, r, i + 1)
    ensures OneInsert(env, Ended(env, r, i), i)
  {
    CoreEvents(i, r.events);
    assert Kept(s, r.st, i + 1);
    assert r.st.muts[i] == s.muts[i] && r.st.specs[i] == s.specs[i];
    if Inserts(r.events) != [] {
      assert Current(env, r.st, i);
      FinishCurrent(env, r.st, i);
    }
  }

  /** Marking a mutation done does not touch any insert. */
  lemma FinishCurrent(env: Env, st: State, i: nat)
    requires i < |env.hooks| && Ready(env, st, |env.hooks|)
    ensures Ready(env, Finish(st, i), |env.hooks|) && Batch(Finish(st, i)) == Batch(st)
    ensures forall j | 0 <= j < |env.hooks| :: Current(env, Finish(st, i), j) <==> Current(env, st, j)
  {
  }

  // ---------------------------------------------------------------- all or nothing

  predicate NoSkips(env: Env) {
    forall i, h | 0 <= i < |env.hooks| && 0 <= h < |env.hooks[i]| :: !env.hooks[i][h].act.Skip?
  }

  /** The node that a successful save returns for builder j: what createSpec made, with the id noted for its spec. */
  ghost predicate Returned(env: Env, st: State, j: nat)
    requires j < |st.muts| == |st.nodes| == |st.ids|
  {
    var node := env.node(st.muts[j].draft);
    var id := st.ids[j].GetOr(node.id);
    st.muts[j].done && st.muts[j].id == Some(id) && st.nodes[j] == Some(node.(id := id))
  }

  /** The batch was inserted. */
  predicate Committed(env: Env, es: seq<Event>) {
    Inserts(es) != [] && env.store(Inserts(es)[0]).Stored?
  }

  /** The id noted for every spec is the one the database reported at its place in the reply to the batch. */
  ghost predicate Noted(env: Env, r: Outcome) {
    Committed(env, r.events) ==>
      var reported := env.store(Inserts(r.events)[0]).ids;
      forall j | 0 <= j < |r.st.ids| ::
        (j < |reported| ==> r.st.ids[j] == reported[j]) && (j >= |reported| ==> r.st.ids[j] == None)
  }

  /** Among the builders from i on, those whose mutation is marked done form the end of the list; none is, unless the
      insert succeeded; and if the run succeeds it did, all are, and their nodes are what is returned. */
  ghost predicate SuffixDone(env: Env, r: Outcome, i: nat)
    requires Ready(env, r.st, i)
  {
    && (forall j, k | i <= j <= k < |env.hooks| && r.st.muts[j].done :: r.st.muts[k].done)
    && (forall j | i <= j < |env.hooks| && r.st.muts[j].done :: Returned(env, r.st, j) && Committed(env, r.events))
    && (r.err.None? ==> Committed(env, r.events) && forall j | i <= j < |env.hooks| :: r.st.muts[j].done)
    && Noted(env, r)
  }

  /** No mutation from i on is marked done yet. */
  ghost predicate NoneDone(st: State, i: nat) {
    forall j | i <= j < |st.muts| :: !st.muts[j].done
  }

  lemma {:induction false} AllOrNothing(env: Env, st: State, i: nat, h: nat, f: Option<Mut>)
    requires Ready(env, st, i) && i < |env.hooks| && h <= |env.hooks[i]|
    requires NoSkips(env) && NoneDone(st, i) && (f.Some? ==> !f.value.done)
    ensures SuffixDone(env, Mutate(env, st, i, h, f), i)
    decreases |env.hooks| - i, |env.hooks[i]| - h, 1
  {
    if h < |env.hooks[i]| {
      HookDone(env, st, i, h, f);
    } else {
      CoreDone(env, st, i, f);
    }
  }

  lemma {:induction false} HookDone(env: Env, st: State, i: nat, h: nat, f: Option<Mut>)
    requires Ready(env, st, i) && i < |env.hooks| && h < |env.hooks[i]|
    requires NoSkips(env) && NoneDone(st, i) && (f.Some? ==> !f.value.done)
    ensures SuffixDone(env, Hooked(env, st, i, h, f), i)
    decreases |env.hooks| - i, |env.hooks[i]| - h, 0
  {
    var hook := env.hooks[i][h];
    var s, g := Edited(st, i, f, hook), PassedOn(st, i, f, hook);
    NoInsert(i, h);
    if !hook.act.Veto? {
      var r := Mutate(env, s, i, h + 1, g);
      AllOrNothing(env, s, i, h + 1, g);
      HookEvents(i, h, r.events);
      SameDone(env, r, Hooked(env, st, i, h, f), i);
    }
  }

  /** An error added on the way out, and events that are no inserts, do not matter. */
  lemma SameDone(env: Env, r: Outcome, q: Outcome, i: nat)
    requires Ready(env, r.st, i) && SuffixDone(env, r, i)
    requires q.st == r.st && Inserts(q.events) == Inserts(r.events) && (q.err.None? ==> r.err.None?)
    ensures SuffixDone(env, q, i)
  {
  }

  lemma {:induction false} CoreDone(env: Env, st: State, i: nat, f: Option<Mut>)
    requires Ready(env, st, i) && i < |env.hooks|
    requires NoSkips(env) && NoneDone(st, i) && (f.Some? ==> !f.value.done)
    ensures SuffixDone(env, Core(env, st, i, f), i)
    decreases |env.hooks| - i, 0, 0
  {
    if env.check(st.muts[i].draft).None? {
      var s := WithSpec(env, st, i, InFlight(st, i, f));
      if i + 1 < |env.hooks| {
        AllOrNothing(env, s, i + 1, 0, None);
      } else {
        One(Insert(Batch(s)));
      }
      Marked(env, s, Rest(env, s, i), i);
    }
  }

  lemma Marked(env: Env, s: State, r: Outcome, i: nat)
    requires i < |env.hooks| && Ready(env, s, i + 1) && r == Rest(env, s, i) && SuffixDone(env, r, i + 1)
    requires !s.muts[i].done && s.nodes[i] == Some(env.node(s.muts[i].draft))
    ensures SuffixDone(env, Ended(env, r, i), i)
  {
    assert Kept(s, r.st, i + 1);
    assert r.st.muts[i] == s.muts[i] && r.st.nodes[i] == s.nodes[i];
    CoreEvents(i, r.events);
    if r.err.None? {
      forall j | i <= j < |env.hooks| ensures Finish(r.st, i).muts[j].done && Returned(env, Finish(r.st, i), j) {
        if j > i { assert r.st.muts[j].done && Returned(env, r.st, j); }
      }
    }
  }

  /** No hook skips, from hook h of builder i inwards and onwards. */
  predicate NoSkipFrom(hooks: seq<seq<Hook>>, i: nat, h: nat)
    requires i <= |hooks| && (i < |hooks| ==> h <= |hooks[i]|)
    decreases |hooks| - i, if i < |hooks| then |hooks[i]| - h else 0
  {
    if i == |hooks| then true
    else if h < |hooks[i]| then !hooks[i][h].act.Skip? && NoSkipFrom(hooks, i, h + 1)
    else NoSkipFrom(hooks, i + 1, 0)
  }

  lemma {:induction false} NoSkipFromAll(hooks: seq<seq<Hook>>, i: nat, h: nat)
    requires i <= |hooks| && (i < |hooks| ==> h <= |hooks[i]|)
    ensures NoSkipFrom(hooks, i, h) <==>
            forall j, l | i <= j < |hooks| && (if j == i then h else 0) <= l < |hooks[j]| :: !hooks[j][l].act.Skip?
    decreases |hooks| - i, if i < |hooks| then |hooks[i]| - h else 0
  {
    if i < |hooks| {
      if h < |hooks[i]| {
        NoSkipFromAll(hooks, i, h + 1);
      } else {
        NoSkipFromAll(hooks, i + 1, 0);
      }
    }
  }

  /** Whatever else happens: a run that succeeds has inserted exactly if no hook skips. */
  lemma {:induction false} SkipExact(env: Env, st: State, i: nat, h: nat, f: Option<Mut>)
    requires Ready(env, st, i) && i < |env.hooks| && h <= |env.hooks[i]|
    ensures var r := Mutate(env, st, i, h, f);
              r.err.None? ==> (Inserts(r.events) != [] <==> NoSkipFrom(env.hooks, i, h))
    decreases |env.hooks| - i, |env.hooks[i]| - h, 1
  {
    if h < |env.hooks[i]| {
      var hook := env.hooks[i][h];
      NoInsert(i, h);
      if hook.act.Pass? || hook.act.Fail? {
        var s, g := Edited(st, i, f, hook), PassedOn(st, i, f, hook);
        SkipExact(env, s, i, h + 1, g);
        HookEvents(i, h, Mutate(env, s, i, h + 1, g).events);
      }
    } else {
      SkipCore(env, st, i, f);
    }
  }

  lemma {:induction false} SkipCore(env: Env, st: State, i: nat, f: Option<Mut>)
    requires Ready(env, st, i) && i < |env.hooks|
    ensures var r := Core(env, st, i, f);
              r.err.None? ==> (Inserts(r.events) != [] <==> NoSkipFrom(env.hooks, i + 1, 0))
    decreases |env.hooks| - i, 0, 0
  {
    if env.check(st.muts[i].draft).None? {
      var s := WithSpec(env, st, i, InFlight(st, i, f));
      if i + 1 < |env.hooks| {
        SkipExact(env, s, i + 1, 0, None);
      } else {
        LastInserts(env, s, i);
      }
      EndedKeeps(env, Rest(env, s, i), i);
    }
  }

  // ---------------------------------------------------------------- a whole save

  /** Save inserts at most once, after every check, everything in order; with hooks that do not skip, the mutations
      marked done are a suffix of the builders, none without the insert, all on success. A builder error, or an empty
      list of builders, ends it before anything happens. */
  lemma SavedAllOrNothing(env: Env, preset: bool, muts: seq<Mut>, rts: seq<Runtime>)
    requires |muts| == |rts| == |env.hooks| && forall j | 0 <= j < |muts| :: !muts[j].done
    ensures var r := Saved(env, preset, muts, rts);
              && (preset || muts == [] ==> r.events == [] && (r.err.Some? <==> preset))
              && (!preset && muts != [] ==> OneInsert(env, r, 0) && (NoSkips(env) ==> SuffixDone(env, r, 0)))
  {
    if !preset && muts != [] {
      var st := Start(muts, rts);
      AtMostOneInsert(env, st, 0, 0, None);
      if NoSkips(env) { AllOrNothing(env, st, 0, 0, None); }
    }
  }

  /** The id of builder j: what the reply to the batch says at place j, or 0 where it says nothing. */
  function GivenID(reply: Reply, j: nat): int {
    match reply
    case Stored(reported) => if j < |reported| && reported[j].Some? then reported[j].value else 0
    case Denied => 0
  }

  /** A successful save of account builders whose hooks do not skip inserts one batch, which the database takes; every
      mutation ends done with the id that was reported at its own place, and every node is its draft with that id. */
  lemma SavedIDs(hooks: seq<seq<Hook>>, store: seq<Spec> -> Reply, muts: seq<Mut>, rts: seq<Runtime>, j: nat)
    requires |muts| == |rts| == |hooks| && j < |hooks| && forall m | m in muts :: !m.done
    ensures var env := AccountEnv(hooks, store);
            var r := Saved(env, false, muts, rts);
              NoSkips(env) && r.err.None? ==>
                && |Inserts(r.events)| == 1 && store(Inserts(r.events)[0]).Stored? && |Inserts(r.events)[0]| == |hooks|
                && Inserts(r.events)[0][j] == SpecOf(r.st.muts[j].draft)
                && r.st.muts[j].done && r.st.muts[j].id == Some(GivenID(store(Inserts(r.events)[0]), j))
                && r.st.nodes[j] == Some(NodeOf(r.st.muts[j].draft).(id := GivenID(store(Inserts(r.events)[0]), j)))
  {
    var env := AccountEnv(hooks, store);
    SavedAllOrNothing(env, false, muts, rts);
    var r := Saved(env, false, muts, rts);
    if NoSkips(env) && r.err.None? {
      assert Returned(env, r.st, j) && Noted(env, r) && Current(env, r.st, j);
    }
  }

  /** A save of account builders that succeeds has inserted exactly if none of their hooks skips. */
  lemma SavedSkips(hooks: seq<seq<Hook>>, store: seq<Spec> -> Reply, muts: seq<Mut>, rts: seq<Runtime>)
    requires |muts| == |rts| == |hooks| && muts != []
    ensures var env := AccountEnv(hooks, store);
            var r := Saved(env, false, muts, rts);
              r.err.None? ==> (Inserts(r.events) != [] <==> NoSkips(env))
  {
    SkipExact(AccountEnv(hooks, store), Start(muts, rts), 0, 0, None);
    NoSkipFromAll(hooks, 0, 0);
  }

  lemma SkippedSecond(env: Env, st: State, hook: Hook)
    requires env.hooks == [[], [hook]] && hook.act.Skip? && Ready(env, st, 0) && env.check(st.muts[0].draft).None?
    ensures var r := Mutate(env, st, 0, 0, None);
              r.err.None? && Inserts(r.events) == [] && r.st.muts[0].done && r.st.specs[1] == st.specs[1]
  {
    var s := WithSpec(env, st, 0, st.muts[0]);
    assert Mutate(env, st, 0, 0, None) == Core(env, st, 0, None);
    var r := Rest(env, s, 0);
    assert r == Mutate(env, s, 1, 0, None) == Hooked(env, s, 1, 0, None);
    NoInsert(1, 0);
    CoreEvents(0, r.events);
  }

  /** An account with nothing set but what a caller has to set. */
  function Minimal(): Draft {
    Draft(map[Name := Str("account"), Platform := Str("openai"), Type := Str("oauth")], None, None, [], [], [])
  }

  /** Two valid accounts, the second with a hook that skips: Save succeeds and the first is marked done, yet nothing has
      been inserted. */
  lemma SkipWitness(store: seq<Spec> -> Reply)
    ensures var rt := Runtime(Some(0), Some(0), Some(map[]), Some(map[]));
            var hooks, m := [[], [Hook(d => d, false, Skip)]], Mut(Minimal(), None, false);
            var r := Saved(AccountEnv(hooks, store), false, [m, m], [rt, rt]);
              r.err.None? && r.st.muts[0].done && Inserts(r.events) == []
  {
    var rt := Runtime(Some(0), Some(0), Some(map[]), Some(map[]));
    var hook, m := Hook(d => d, false, Skip), Mut(Minimal(), None, false);
    MinimalPasses(rt);
    SkippedSecond(AccountEnv([[], [hook]], store), Start([m, m], [rt, rt]), hook);
  }

  lemma MinimalPasses(rt: Runtime)
    requires rt.createdAt.Some? && rt.updatedAt.Some? && rt.credentials.Some? && rt.extra.Some?
    ensures Checked(Defaulted(Minimal(), rt)).None?
  {
    CallerSets(Minimal(), rt);
    FillOutcome(Minimal().fields, DefaultTable(rt), |DefaultTable(rt)|);
  }

  /** The calls of hooks during Save are well nested; with pass-through hooks, the first hook of the first builder
      outermost, its trace is the way in, one event, and the mirror image of the way in. */
  lemma SavedNests(env: Env, muts: seq<Mut>, rts: seq<Runtime>)
    requires |muts| == |rts| == |env.hooks| && muts != []
    ensures var r := Saved(env, false, muts, rts);
              && Close([], r.events) == Some([])
              && (PassThrough(env) ==> exists k, e :: Symmetric(env, r, 0, 0, k, e))
  {
    HooksNest(env, Start(muts, rts), 0, 0, None, []);
    if PassThrough(env) {
      var k, e := PassThroughTrace(env, Start(muts, rts), 0, 0, None);
    }
  }

  // ---------------------------------------------------------------- what is checked and what is inserted

  predicate NoSwap(hooks: seq<Hook>) {
    forall h | 0 <= h < |hooks| :: !hooks[h].swap
  }

  /** From the h-th on, every hook passes its mutation on. */
  predicate PassesOn(hooks: seq<Hook>, h: nat) {
    forall l | h <= l < |hooks| :: hooks[l].act.Pass? || hooks[l].act.Fail?
  }

  /** What check sees of a builder: its own draft as edited by the hooks from h on, up to the first that swaps. */
  function CheckedDraft(hooks: seq<Hook>, h: nat, own: Draft, swapped: bool): Draft
    requires h <= |hooks|
    decreases |hooks| - h
  {
    if swapped || h == |hooks| || hooks[h].swap then own else CheckedDraft(hooks, h + 1, hooks[h].edit(own), false)
  }

  /** What the insert is made from: the draft in flight as edited by all the hooks from h on. */
  function FinalDraft(hooks: seq<Hook>, h: nat, flying: Draft): Draft
    requires h <= |hooks|
    decreases |hooks| - h
  {
    if h == |hooks| then flying else FinalDraft(hooks, h + 1, hooks[h].edit(flying))
  }

  /** Builder j lets the chain through, if its draft is d when its mutator is called. */
  predicate Clears(env: Env, j: nat, d: Draft)
    requires j < |env.hooks|
  {
    PassesOn(env.hooks[j], 0) && env.check(CheckedDraft(env.hooks[j], 0, d, false)).None?
  }

  /** All builders from i on do, and what their mutations hold after a run that inserted. */
  ghost predicate AllClear(env: Env, st: State, i: nat)
    requires i <= |env.hooks| == |st.muts|
  {
    forall j | i <= j < |env.hooks| :: Clears(env, j, st.muts[j].draft)
  }

  ghost predicate AllFinal(env: Env, st: State, now: State, i: nat)
    requires i <= |env.hooks| == |st.muts| == |now.muts|
  {
    forall j | i <= j < |env.hooks| :: now.muts[j].draft == FinalDraft(env.hooks[j], 0, st.muts[j].draft)
  }

  /** The insert is reached exactly if every hook passes on and every check accepts what it sees; and what is inserted
      is what all the edits, whether or not a hook swapped the mutation in between, have made of the drafts. */
  lemma {:induction false} InsertExact(env: Env, st: State, i: nat, h: nat, f: Option<Mut>)
    requires Ready(env, st, i) && i < |env.hooks| && h <= |env.hooks[i]|
    ensures var r := Mutate(env, st, i, h, f);
              && (Inserts(r.events) != [] <==>
                    && PassesOn(env.hooks[i], h)
                    && env.check(CheckedDraft(env.hooks[i], h, st.muts[i].draft, f.Some?)).None?
                    && AllClear(env, st, i + 1))
              && (Inserts(r.events) != [] ==>
                    r.st.muts[i].draft == FinalDraft(env.hooks[i], h, InFlight(st, i, f).draft)
                        && AllFinal(env, st, r.st, i + 1))
    decreases |env.hooks| - i, |env.hooks[i]| - h, 2
  {
    if h < |env.hooks[i]| {
      HookExact(env, st, i, h, f);
    } else {
      CoreExact(env, st, i, f);
    }
  }

  lemma {:induction false} HookExact(env: Env, st: State, i: nat, h: nat, f: Option<Mut>)
    requires Ready(env, st, i) && i < |env.hooks| && h < |env.hooks[i]|
    ensures var r := Hooked(env, st, i, h, f);
              && (Inserts(r.events) != [] <==>
                    && PassesOn(env.hooks[i], h)
                    && env.check(CheckedDraft(env.hooks[i], h, st.muts[i].draft, f.Some?)).None?
                    && AllClear(env, st, i + 1))
              && (Inserts(r.events) != [] ==>
                    r.st.muts[i].draft == FinalDraft(env.hooks[i], h, InFlight(st, i, f).draft)
                        && AllFinal(env, st, r.st, i + 1))
    decreases |env.hooks| - i, |env.hooks[i]| - h, 0
  {
    var hook := env.hooks[i][h];
    assert PassesOn(env.hooks[i], h) <==> (hook.act.Pass? || hook.act.Fail?) && PassesOn(env.hooks[i], h + 1);
    if hook.act.Pass? || hook.act.Fail? {
      var s, g := Edited(st, i, f, hook), PassedOn(st, i, f, hook);
      InsertExact(env, s, i, h + 1, g);
      PassedThrough(env, st, i, h, f);
      EditedRest(env, st, i, f, hook, Mutate(env, s, i, h + 1, g).st);
    } else {
      NoInsert(i, h);
    }
  }

  /** A hook that passes on adds nothing to what is inserted. */
  lemma PassedThrough(env: Env, st: State, i: nat, h: nat, f: Option<Mut>)
    requires Ready(env, st, i) && i < |env.hooks| && h < |env.hooks[i]|
    requires (env.hooks[i][h].act.Pass? || env.hooks[i][h].act.Fail?)
    ensures var hook, r := env.hooks[i][h], Hooked(env, st, i, h, f);
            var s, g := Edited(st, i, f, hook), PassedOn(st, i, f, hook);
              && Ready(env, s, i)
              && r.st == Mutate(env, s, i, h + 1, g).st
              && Inserts(r.events) == Inserts(Mutate(env, s, i, h + 1, g).events)
  {
    var hook := env.hooks[i][h];
    HookEvents(i, h, Mutate(env, Edited(st, i, f, hook), i, h + 1, PassedOn(st, i, f, hook)).events);
  }

  /** A hook's edit shows in the mutation in flight, and not in the builders after it. */
  lemma EditedRest(env: Env, st: State, i: nat, f: Option<Mut>, hook: Hook, now: State)
    requires Ready(env, st, i) && i < |env.hooks| && |env.hooks| == |now.muts|
    ensures var s, g := Edited(st, i, f, hook), PassedOn(st, i, f, hook);
              && InFlight(s, i, g).draft == hook.edit(InFlight(st, i, f).draft)
              && (AllClear(env, s, i + 1) <==> AllClear(env, st, i + 1))
              && (AllFinal(env, s, now, i + 1) <==> AllFinal(env, st, now, i + 1))
  {
    var s := Edited(st, i, f, hook);
    assert forall j | i < j < |env.hooks| :: s.muts[j] == st.muts[j];
  }

  lemma {:induction false} CoreExact(env: Env, st: State, i: nat, f: Option<Mut>)
    requires Ready(env, st, i) && i < |env.hooks|
    ensures var r := Core(env, st, i, f);
              && (Inserts(r.events) != [] <==> env.check(st.muts[i].draft).None? && AllClear(env, st, i + 1))
              && (Inserts(r.events) != [] ==>
                 r.st.muts[i].draft == InFlight(st, i, f).draft && AllFinal(env, st, r.st, i + 1))
    decreases |env.hooks| - i, 0, 1
  {
    if env.check(st.muts[i].draft).Some? {
      One(Rejected(i));
    } else {
      var s := WithSpec(env, st, i, InFlight(st, i, f));
      RestExact(env, st, s, i);
      EndedKeeps(env, Rest(env, s, i), i);
    }
  }

  lemma {:induction false} RestExact(env: Env, st: State, s: State, i: nat)
    requires i < |env.hooks| == |st.muts| && Ready(env, s, i + 1)
    requires forall j | i < j < |env.hooks| :: s.muts[j] == st.muts[j]
    ensures var r := Rest(env, s, i);
              && (Inserts(r.events) != [] <==> AllClear(env, st, i + 1))
              && (Inserts(r.events) != [] ==> r.st.muts[i].draft == s.muts[i].draft && AllFinal(env, st, r.st, i + 1))
    decreases |env.hooks| - i, 0, 0
  {
    var r := Rest(env, s, i);
    assert Kept(s, r.st, i + 1);
    if i + 1 < |env.hooks| {
      InsertExact(env, s, i + 1, 0, None);
      FromNext(env, st, s, r, i + 1);
    } else {
      LastInserts(env, s, i);
    }
  }

  /** The claim for builder i, together with that for the builders after it. */
  lemma FromNext(env: Env, st: State, s: State, r: Outcome, i: nat)
    requires i < |env.hooks| == |st.muts| == |s.muts| == |r.st.muts|
    requires forall j | i <= j < |env.hooks| :: s.muts[j] == st.muts[j]
    ensures AllClear(env, st, i) <==> Clears(env, i, s.muts[i].draft) && AllClear(env, s, i + 1)
    ensures AllFinal(env, st, r.st, i) <==>
            r.st.muts[i].draft == FinalDraft(env.hooks[i], 0, s.muts[i].draft) && AllFinal(env, s, r.st, i + 1)
  {
  }

  /** The batch is made from what the mutations hold in the end. */
  lemma BatchOf(env: Env, st: State, j: nat)
    requires Ready(env, st, 0) && j < |env.hooks| && Inserts(Mutate(env, st, 0, 0, None).events) != []
    ensures var r := Mutate(env, st, 0, 0, None);
              |Inserts(r.events)| == 1 && |Inserts(r.events)[0]| == |env.hooks|
                  && Inserts(r.events)[0][j] == env.spec(r.st.muts[j].draft)
  {
    AtMostOneInsert(env, st, 0, 0, None);
    assert Current(env, Mutate(env, st, 0, 0, None).st, j);
  }

  lemma WholeExact(env: Env, st: State)
    requires Ready(env, st, 0) && env.hooks != []
    ensures var r := Mutate(env, st, 0, 0, None);
              && (Inserts(r.events) != [] <==> AllClear(env, st, 0))
              && (Inserts(r.events) != [] ==> AllFinal(env, st, r.st, 0))
  {
    InsertExact(env, st, 0, 0, None);
    FromNext(env, st, st, Mutate(env, st, 0, 0, None), 0);
  }

  /** Exactly when a save of account builders inserts, and exactly what. */
  lemma SavedInserts(hooks: seq<seq<Hook>>, store: seq<Spec> -> Reply, muts: seq<Mut>, rts: seq<Runtime>)
    requires |muts| == |rts| == |hooks| && muts != []
    ensures var r := Saved(AccountEnv(hooks, store), false, muts, rts);
              && (Inserts(r.events) != [] <==>
                    forall j | 0 <= j < |hooks| ::
                      PassesOn(hooks[j], 0)
                          && Checked(CheckedDraft(hooks[j], 0, Defaulted(muts[j].draft, rts[j]), false)).None?)
              && (Inserts(r.events) != [] ==>
                    && |Inserts(r.events)[0]| == |hooks|
                    && forall j | 0 <= j < |hooks| ::
                         Inserts(r.events)[0][j] == SpecOf(FinalDraft(hooks[j], 0, Defaulted(muts[j].draft, rts[j]))))
  {
    var env, st := AccountEnv(hooks, store), Start(muts, rts);
    WholeExact(env, st);
    assert AllClear(env, st, 0) <==> forall j | 0 <= j < |hooks| :: Clears(env, j, st.muts[j].draft);
    if Inserts(Mutate(env, st, 0, 0, None).events) != [] {
      BatchOf(env, st, 0);
      forall j | 0 <= j < |hooks|
        ensures Inserts(Mutate(env, st, 0, 0, None).events)[0][j] == SpecOf(FinalDraft(hooks[j], 0, st.muts[j].draft))
      {
        BatchOf(env, st, j);
      }
    }
  }

  /** Without a swap, what is checked is what is inserted. */
  lemma {:induction false} CheckedIsFinal(hooks: seq<Hook>, h: nat, d: Draft)
    requires h <= |hooks| && NoSwap(hooks)
    ensures CheckedDraft(hooks, h, d, false) == FinalDraft(hooks, h, d)
    decreases |hooks| - h
  {
    if h < |hooks| { CheckedIsFinal(hooks, h + 1, hooks[h].edit(d)); }
  }

  /** A builder whose hooks pass on its own mutation gets inserted with contents that check has accepted. */
  lemma CheckedUnlessSwapped(env: Env, st: State, i: nat, h: nat, f: Option<Mut>, j: nat)
    requires Ready(env, st, i) && i <= j < |env.hooks| && h <= |env.hooks[i]|
    requires (i == j ==> f.None?) && NoSwap(env.hooks[j])
    requires Inserts(Mutate(env, st, i, h, f).events) != []
    ensures env.check(Mutate(env, st, i, h, f).st.muts[j].draft).None?
  {
    InsertExact(env, st, i, h, f);
    CheckedIsFinal(env.hooks[j], if i == j then h else 0, st.muts[j].draft);
    if i < j { assert Clears(env, j, st.muts[j].draft); }
  }

  /** No account reaches the insert incomplete, whatever its hooks set in between, unless one of them swaps the
      mutation: though Save drops the error of `defaults`, no field is missing that the schema does not make
      optional. */
  lemma InsertedComplete(hooks: seq<seq<Hook>>, store: seq<Spec> -> Reply, muts: seq<Mut>, rts: seq<Runtime>, j: nat)
    requires |muts| == |rts| == |hooks| && j < |muts| && NoSwap(hooks[j])
    requires Inserts(Saved(AccountEnv(hooks, store), false, muts, rts).events) != []
    ensures var r := Saved(AccountEnv(hooks, store), false, muts, rts);
              |Inserts(r.events)[0]| == |hooks| && Inserts(r.events)[0][j] == SpecOf(r.st.muts[j].draft)
                  && Complete(r.st.muts[j].draft)
  {
    var env := AccountEnv(hooks, store);
    AtMostOneInsert(env, Start(muts, rts), 0, 0, None);
    CheckedUnlessSwapped(env, Start(muts, rts), 0, 0, None, j);
    var r := Saved(env, false, muts, rts);
    assert Current(env, r.st, j);
    CheckExact(r.st.muts[j].draft);
  }

  /** Of two hook lists that agree up to a hook that swaps, check sees the same. */
  lemma {:induction false} SwapUnseen(a: seq<Hook>, b: seq<Hook>, l: nat, h: nat, d: Draft)
    requires h <= l < |a| && l < |b| && a[..l] == b[..l] && a[l].swap && b[l].swap
    ensures CheckedDraft(a, h, d, false) == CheckedDraft(b, h, d, false)
    decreases l - h
  {
    if h < l {
      assert a[h] == a[..l][h] == b[h];
      SwapUnseen(a, b, l, h + 1, a[h].edit(d));
    }
  }

  /** What the hooks make of a draft once hook l has put another in its place. */
  lemma {:induction false} EditsAfter(hooks: seq<Hook>, hook: Hook, l: nat, h: nat, d: Draft, other: Draft)
    requires h <= l < |hooks| && hook.edit == ((x: Draft) => other)
    ensures FinalDraft(hooks[l := hook], h, d) == FinalDraft(hooks, l + 1, other)
    decreases l - h
  {
    if h < l {
      EditsAfter(hooks, hook, l, h + 1, hooks[h].edit(d), other);
    } else {
      SameEdits(hooks[l := hook], hooks, l + 1, other);
    }
  }

  lemma {:induction false} SameEdits(a: seq<Hook>, b: seq<Hook>, h: nat, d: Draft)
    requires h <= |a| == |b| && a[h..] == b[h..]
    ensures FinalDraft(a, h, d) == FinalDraft(b, h, d)
    decreases |a| - h
  {
    if h < |a| {
      assert a[h] == a[h..][0] == b[h..][0] == b[h];
      assert a[h + 1..] == a[h..][1..] && b[h + 1..] == b[h..][1..];
      SameEdits(a, b, h + 1, a[h].edit(d));
    }
  }

  /** With a hook that swaps the mutation, what is checked is the old mutation and what is inserted the new one: take
      any builders and hooks that get as far as the insert, and any hook among them that swaps; whatever draft it
      passes on in place of its own, the insert still happens, with what the hooks behind it make of that draft. */
  lemma SwapBypassesCheck(hooks: seq<seq<Hook>>, store: seq<Spec> -> Reply, muts: seq<Mut>, rts: seq<Runtime>, j: nat,
                          l: nat, other: Draft)
    requires |muts| == |rts| == |hooks| && j < |hooks| && l < |hooks[j]| && hooks[j][l].swap
    requires Inserts(Saved(AccountEnv(hooks, store), false, muts, rts).events) != []
    ensures var swapped := hooks[j := hooks[j][l := hooks[j][l].(edit := (x: Draft) => other)]];
            var r := Saved(AccountEnv(swapped, store), false, muts, rts);
              && |Inserts(r.events)| == 1 && |Inserts(r.events)[0]| == |hooks|
              && Inserts(r.events)[0][j] == SpecOf(FinalDraft(hooks[j], l + 1, other))
  {
    var hook := hooks[j][l].(edit := (x: Draft) => other);
    var list := hooks[j][l := hook];
    var swapped := hooks[j := list];
    var d := Defaulted(muts[j].draft, rts[j]);
    SavedInserts(hooks, store, muts, rts);
    SavedInserts(swapped, store, muts, rts);
    SwapUnseen(hooks[j], list, l, 0, d);
    EditsAfter(hooks[j], hook, l, 0, d, other);
    StillPasses(hooks[j], l, hook);
    SwappedClear(hooks, swapped, muts, rts, j);
    AtMostOneInsert(AccountEnv(swapped, store), Start(muts, rts), 0, 0, None);
  }

  lemma StillPasses(hooks: seq<Hook>, l: nat, hook: Hook)
    requires l < |hooks| && PassesOn(hooks, 0) && hook.act == hooks[l].act
    ensures PassesOn(hooks[l := hook], 0)
  {
  }

  /** An account without a name, which check rejects. */
  function Unnamed(): Draft {
    Minimal().(fields := map[Platform := Str("openai"), Type := Str("oauth")])
  }

  /** A valid account with a hook that swaps the mutation: what is inserted is an account without a name. */
  lemma SwapWitness(store: seq<Spec> -> Reply)
    ensures var rt := Runtime(Some(0), Some(0), Some(map[]), Some(map[]));
            var m := Mut(Minimal(), None, false);
            var r := Saved(AccountEnv([[Hook(d => Unnamed(), true, Pass)]], store), false, [m], [rt]);
              && Inserts(r.events) == [[SpecOf(Unnamed())]]
              && Checked(Unnamed()).Some? && forall x | x in SpecOf(Unnamed()).fields :: x.field != Name
  {
    var rt, m := Runtime(Some(0), Some(0), Some(map[]), Some(map[])), Mut(Minimal(), None, false);
    MinimalPasses(rt);
    CheckExact(Unnamed());
    SwappedOnly(store, d => Unnamed(), m, rt, Unnamed());
    forall x | x in SpecOf(Unnamed()).fields ensures x.field != Name {
      FieldSpecsExact(Unnamed().fields, AllFields(), x);
    }
  }

  lemma SwappedOnly(store: seq<Spec> -> Reply, edit: Draft -> Draft, m: Mut, rt: Runtime, other: Draft)
    requires Checked(Defaulted(m.draft, rt)).None? && edit(Defaulted(m.draft, rt)) == other
    ensures Inserts(Saved(AccountEnv([[Hook(edit, true, Pass)]], store), false, [m], [rt]).events) == [[SpecOf(other)]]
  {
    var hooks := [[Hook(edit, true, Pass)]];
    var d := Defaulted(m.draft, rt);
    assert CheckedDraft(hooks[0], 1, d, true) == d && FinalDraft(hooks[0], 1, other) == other;
    assert CheckedDraft(hooks[0], 0, d, false) == d && FinalDraft(hooks[0], 0, d) == other;
    SavedInserts(hooks, store, [m], [rt]);
    AtMostOneInsert(AccountEnv(hooks, store), Start([m], [rt]), 0, 0, None);
    var r := Saved(AccountEnv(hooks, store), false, [m], [rt]);
    assert Inserts(r.events)[0] == [SpecOf(other)];
  }

  lemma SwappedClear(hooks: seq<seq<Hook>>, swapped: seq<seq<Hook>>, muts: seq<Mut>, rts: seq<Runtime>, j: nat)
    requires |muts| == |rts| == |hooks| == |swapped| && j < |hooks| && swapped == hooks[j := swapped[j]]
    requires forall k | 0 <= k < |hooks| ::
               PassesOn(hooks[k], 0)
                   && Checked(CheckedDraft(hooks[k], 0, Defaulted(muts[k].draft, rts[k]), false)).None?
    requires PassesOn(swapped[j], 0)
    requires Checked(CheckedDraft(swapped[j], 0, Defaulted(muts[j].draft, rts[j]), false)).None?
    ensures forall k | 0 <= k < |swapped| ::
              PassesOn(swapped[k], 0)
                  && Checked(CheckedDraft(swapped[k], 0, Defaulted(muts[k].draft, rts[k]), false)).None?
  {
  }
}
