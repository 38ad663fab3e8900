/**
 What AccountCreate.Save means: defaults, then sqlSave inside the builder's hooks
 (backend/ent/account_create.go:497-502, :664-680, backend/ent/ent.go:568-599).
 */
module SingleCreate {
  import opened Wrappers
  import opened Schema
  import opened AccountFields
  import opened BulkCreate
  import opened BulkGuarantees

  datatype SingleFault = Uninitialized(f: Field) | NilHook | In(fault: Fault) | UnexpectedNode

  /** The builder's mutation, the value and the error returned, and what happened. */
  datatype Result1 = Result1(m: Mut, value: Option<Account>, err: Option<Fault>, events: seq<Event>)

  /** sqlSave; the single builder is builder 0 of its trace. */
  function SqlSave(env: Env, m: Mut): Result1 {
    var checked := env.check(m.draft);
    if checked.Some? then Result1(m, None, Some(Rejection(checked.value)), [Rejected(0)])
    else
      match env.store([env.spec(m.draft)])
      case Denied => Result1(m, None, Some(Refused), [Passed(0), Created(0), Insert([env.spec(m.draft)])])
      case Stored(ids) =>
        var id := IDAt(ids, 0).GetOr(0);
        Result1(m.(id := Some(id), done := true), Some(env.node(m.draft).(id := id)), None,
                [Passed(0), Created(0), Insert([env.spec(m.draft)]), Finished(0)])
  }

  /** The mutator inside the hooks from h on. Before sqlSave the contents of the mutation in flight are copied into the
      builder's. */
  function Single(env: Env, hooks: seq<Hook>, m: Mut, h: nat, f: Option<Mut>): Result1
    requires h <= |hooks|
    decreases |hooks| - h
  {
    if h == |hooks| then SqlSave(env, f.GetOr(m))
    else
      var hook := hooks[h];
      var flying := f.GetOr(m);
      var d := hook.edit(flying.draft);
      var n := if hook.swap || f.Some? then m else m.(draft := d);
      var g := if hook.swap then Some(Mut(d, None, false)) else if f.Some? then Some(flying.(draft := d)) else None;
      if hook.act.Veto? then Result1(n, None, Some(Vetoed(0, h)), [Enter(0, h), Exit(0, h)])
      else if hook.act.Skip? then Result1(n, None, None, [Enter(0, h), Skipped(0, h), Exit(0, h)])
      else
        var r := Single(env, hooks, n, h + 1, g);
        Result1(r.m, r.value, if r.err.None? && hook.act.Fail? then Some(Failed(0, h)) else r.err,
                [Enter(0, h)] + r.events + [Exit(0, h)])
  }

  /** withHooks: a nil hook in the list is an error before any of them runs, and so is a value that is not an account,
      such as the nil of a hook that skips. */
  function WithHooks(env: Env, hooks: seq<Hook>, nilHook: bool, m: Mut)
    : (Mut, Option<Account>, Option<SingleFault>, seq<Event>)
  {
    if nilHook then (m, None, Some(NilHook), [])
    else
      var r := Single(env, hooks, m, 0, None);
      if r.err.Some? then (r.m, None, Some(In(r.err.value)), r.events)
      else if r.value.None? then (r.m, None, Some(UnexpectedNode), r.events)
      else (r.m, r.value, None, r.events)
  }

  /** Save: the defaults, then sqlSave inside the hooks. */
  function SavedAlone(env: Env, hooks: seq<Hook>, nilHook: bool, m: Mut, rt: Runtime)
    : (Mut, Option<Account>, Option<SingleFault>, seq<Event>)
  {
    var n, e := m.(draft := Defaulted(m.draft, rt)), DefaultError(m.draft, rt);
    if e.Some? then (n, None, Some(Uninitialized(e.value)), []) else WithHooks(env, hooks, nilHook, n)
  }

  /** What was inserted, if anything, is the builder's mutation as check has accepted it; the mutation is marked done
      exactly if the insert succeeded, and an account is returned only then. */
  ghost predicate Honest(env: Env, r: Result1) {
    && |Inserts(r.events)| <= 1
    && (Inserts(r.events) != [] ==> Inserts(r.events)[0] == [env.spec(r.m.draft)] && env.check(r.m.draft).None?)
    && (r.m.done <==> Committed(env, r.events))
    && (r.value.Some? ==>
          && r.m.done && r.m.id == Some(r.value.value.id)
          && r.value.value.id == GivenID(env.store([env.spec(r.m.draft)]), 0)
          && r.value.value == env.node(r.m.draft).(id := r.value.value.id))
  }

  lemma SqlSaveHonest(env: Env, m: Mut)
    requires !m.done
    ensures Honest(env, SqlSave(env, m))
  {
    var ins := Insert([env.spec(m.draft)]);
    One(Rejected(0));
    One(ins);
    CoreEvents(0, [ins]);
    assert [Passed(0), Created(0)] + [ins] == [Passed(0), Created(0), ins];
    assert [Passed(0), Created(0), ins] + [Finished(0)] == [Passed(0), Created(0), ins, Finished(0)];
  }

  /** A single save keeps to that whatever its hooks do, swapping the mutation and skipping included. */
  lemma {:induction false} SingleHonest(env: Env, hooks: seq<Hook>, m: Mut, h: nat, f: Option<Mut>)
    requires h <= |hooks| && !m.done && (f.Some? ==> !f.value.done)
    ensures Honest(env, Single(env, hooks, m, h, f))
    decreases |hooks| - h
  {
    if h == |hooks| {
      SqlSaveHonest(env, f.GetOr(m));
    } else {
      var hook := hooks[h];
      var d := hook.edit(f.GetOr(m).draft);
      var n := if hook.swap || f.Some? then m else m.(draft := d);
      var g := if hook.swap then Some(Mut(d, None, false)) else if f.Some? then Some(f.value.(draft := d)) else None;
      SingleHonest(env, hooks, n, h + 1, g);
      HookEvents(0, h, Single(env, hooks, n, h + 1, g).events);
      NoInsert(0, h);
    }
  }

  /** So an account returned by Save was checked, inserted and marked done, for any hooks at all, and has the id that
      the database reported. */
  lemma SavedAloneHonest(env: Env, hooks: seq<Hook>, nilHook: bool, m: Mut, rt: Runtime)
    requires !m.done
    ensures var (n, value, err, events) := SavedAlone(env, hooks, nilHook, m, rt);
              && (err.None? <==> value.Some?)
              && (err.None? ==>
                    && n.done && Committed(env, events)
                    && value == Some(env.node(n.draft).(id := GivenID(env.store([env.spec(n.draft)]), 0)))
                    && Inserts(events) == [[env.spec(n.draft)]] && env.check(n.draft).None?)
              && (n.done <==> Committed(env, events))
  {
    SingleHonest(env, hooks, m.(draft := Defaulted(m.draft, rt)), 0, None);
  }

  // ---------------------------------------------------------------- one by one or in bulk

  lemma SqlSaveInserts(env: Env, m: Mut)
    ensures Inserts(SqlSave(env, m).events) != [] <==> env.check(m.draft).None?
  {
    var ins := Insert([env.spec(m.draft)]);
    One(Rejected(0));
    One(ins);
    CoreEvents(0, [ins]);
    assert [Passed(0), Created(0)] + [ins] == [Passed(0), Created(0), ins];
    assert [Passed(0), Created(0), ins] + [Finished(0)] == [Passed(0), Created(0), ins, Finished(0)];
  }

  /** Inside its hooks a single save inserts exactly if they all pass on and check accepts what they made of the
      draft. */
  lemma {:induction false} SingleInserts(env: Env, hooks: seq<Hook>, m: Mut, h: nat, f: Option<Mut>)
    requires h <= |hooks|
    ensures Inserts(Single(env, hooks, m, h, f).events) != [] <==>
            PassesOn(hooks, h) && env.check(FinalDraft(hooks, h, f.GetOr(m).draft)).None?
    decreases |hooks| - h
  {
    if h == |hooks| {
      SqlSaveInserts(env, f.GetOr(m));
    } else {
      var hook := hooks[h];
      var d := hook.edit(f.GetOr(m).draft);
      var n := if hook.swap || f.Some? then m else m.(draft := d);
      var g := if hook.swap then Some(Mut(d, None, false)) else if f.Some? then Some(f.value.(draft := d)) else None;
      SingleInserts(env, hooks, n, h + 1, g);
      HookEvents(0, h, Single(env, hooks, n, h + 1, g).events);
      NoInsert(0, h);
      assert PassesOn(hooks, h) <==> (hook.act.Pass? || hook.act.Fail?) && PassesOn(hooks, h + 1);
    }
  }

  /** A single save inserts exactly if its defaults are initialized, no hook is nil, and the rest lets it through. */
  lemma SavedAloneInserts(env: Env, hooks: seq<Hook>, nilHook: bool, m: Mut, rt: Runtime)
    ensures Inserts(SavedAlone(env, hooks, nilHook, m, rt).3) != [] <==>
            && DefaultError(m.draft, rt).None? && !nilHook
            && PassesOn(hooks, 0)
            && env.check(FinalDraft(hooks, 0, Defaulted(m.draft, rt))).None?
  {
    SingleInserts(env, hooks, m.(draft := Defaulted(m.draft, rt)), 0, None);
  }

  /** A bulk save gets as far as the insert exactly if every builder saved alone would: without hooks, and also with
      hooks that do not swap the mutation, where defaults are initialized. */
  lemma BulkLikeSingles(hooks: seq<seq<Hook>>, store: seq<Spec> -> Reply, muts: seq<Mut>, rts: seq<Runtime>)
    requires |muts| == |rts| == |hooks| && muts != []
    requires forall j | 0 <= j < |hooks| ::
               hooks[j] == [] || (NoSwap(hooks[j]) && DefaultError(muts[j].draft, rts[j]).None?)
    ensures var env := AccountEnv(hooks, store);
              Inserts(Saved(env, false, muts, rts).events) != [] <==>
              forall j | 0 <= j < |muts| :: Inserts(SavedAlone(env, hooks[j], false, muts[j], rts[j]).3) != []
  {
    var env := AccountEnv(hooks, store);
    SavedInserts(hooks, store, muts, rts);
    forall j | 0 <= j < |muts|
      ensures Inserts(SavedAlone(env, hooks[j], false, muts[j], rts[j]).3) != [] <==>
              PassesOn(hooks[j], 0) && Checked(CheckedDraft(hooks[j], 0, Defaulted(muts[j].draft, rts[j]), false)).None?
    {
      SavedAloneInserts(env, hooks[j], false, muts[j], rts[j]);
      CheckedIsFinal(hooks[j], 0, Defaulted(muts[j].draft, rts[j]));
      DefaultErrorCaught(muts[j].draft, rts[j]);
    }
  }
}
