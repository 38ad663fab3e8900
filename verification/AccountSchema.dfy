/**
 The fields of an account as its schema declares them, and the generated builder against that declaration
 (backend/ent/schema/account.go:47-203, backend/ent/schema/mixins/time.go, backend/ent/schema/mixins/soft_delete.go).
 */
module AccountSchema {
  import opened Wrappers
  import opened Schema
  import opened AccountFields

  /** What a set value must satisfy. */
  datatype Limits = Free | Length(least: nat, most: nat) | OneOf(texts: set<string>)

  /** The default of a field: none, a constant, or the result of a function, which may never have been initialized. */
  datatype Preset = Nothing | Constant(v: Datum) | Computed(result: Option<Datum>)

  datatype Declaration = Declaration(optional: bool, preset: Preset, limits: Limits)

  function Optional(): Declaration {
    Declaration(true, Nothing, Free)
  }

  function Declared(f: Field, rt: Runtime): Declaration {
    match f
    case CreatedAt =>
      Declaration(false, Computed(if rt.createdAt.Some? then Some(At(rt.createdAt.value)) else None), Free)
    case UpdatedAt =>
      Declaration(false, Computed(if rt.updatedAt.Some? then Some(At(rt.updatedAt.value)) else None), Free)
    case Name => Declaration(false, Nothing, Length(1, 100))
    case Platform => Declaration(false, Nothing, Length(1, 50))
    case Type => Declaration(false, Nothing, Length(1, 20))
    case Credentials =>
      Declaration(false, Computed(if rt.credentials.Some? then Some(Object(Doc(rt.credentials.value))) else None), Free)
    case Extra =>
      Declaration(false, Computed(if rt.extra.Some? then Some(Object(Doc(rt.extra.value))) else None), Free)
    case Concurrency => Declaration(false, Constant(Num(3)), Free)
    case Priority => Declaration(false, Constant(Num(50)), Free)
    case RateMultiplier => Declaration(false, Constant(Rate(1.0)), Free)
    case Status => Declaration(false, Constant(Str("active")), Length(0, 20))
    case AutoPauseOnExpired => Declaration(false, Constant(Flag(true)), Free)
    case Schedulable => Declaration(false, Constant(Flag(true)), Free)
    case SessionWindowStatus => Declaration(true, Nothing, Length(0, 20))
    case QuotaDimension => Declaration(false, Constant(Str("global")), OneOf({"global", "spark"}))
    case DeletedAt | Notes | ProxyFallbackOriginID | LoadFactor | ErrorMessage | LastUsedAt | ExpiresAt | RateLimitedAt
       | RateLimitResetAt | OverloadUntil | TempUnschedulableUntil | TempUnschedulableReason | SessionWindowStart
       | SessionWindowEnd => Optional()
  }

  predicate Within(limits: Limits, v: Datum) {
    match limits
    case Free => true
    case Length(least, most) => v.Str? && least <= |v.s| <= most
    case OneOf(texts) => v.Str? && v.s in texts
  }

  /** The value a field gets where it is not set, if any. */
  function PresetOf(p: Preset): Option<Datum> {
    match p
    case Nothing => None
    case Constant(v) => Some(v)
    case Computed(result) => result
  }

  lemma LimitsExact(f: Field, rt: Runtime, v: Datum)
    ensures !Nillable(f) <==> !Declared(f, rt).optional
    ensures Within(Declared(f, rt).limits, v) <==> Validated(f) ==> ValidText(f, v)
  {
  }

  /** `check` accepts a draft if and only if every field that is not declared optional is set, and every field that is
      set is within its declared limits. */
  lemma CheckAsDeclared(d: Draft, rt: Runtime)
    ensures Checked(d).None? <==>
            forall f :: if f in d.fields then Within(Declared(f, rt).limits, d.fields[f]) else Declared(f, rt).optional
  {
    CheckExact(d);
    forall f
      ensures (!Nillable(f) ==> f in d.fields) && (f in d.fields && Validated(f) ==> ValidText(f, d.fields[f])) <==>
              if f in d.fields then Within(Declared(f, rt).limits, d.fields[f]) else Declared(f, rt).optional
    {
      LimitsExact(f, rt, if f in d.fields then d.fields[f] else Num(0));
    }
    if Complete(d) {
      forall f
        ensures if f in d.fields then Within(Declared(f, rt).limits, d.fields[f]) else Declared(f, rt).optional
      {
        assert (!Nillable(f) ==> f in d.fields) && (f in d.fields && Validated(f) ==> ValidText(f, d.fields[f]));
      }
    }
  }

  /** The entry of the table of defaults about a field, which is its declaration. */
  lemma TableAsDeclared(rt: Runtime, i: nat)
    requires i < |DefaultTable(rt)|
    ensures var d := DefaultTable(rt)[i];
              Declared(d.field, rt).preset != Nothing && PresetOf(Declared(d.field, rt).preset) == d.value
  {
  }

  lemma InTable(rt: Runtime, f: Field) returns (i: nat)
    requires Declared(f, rt).preset != Nothing
    ensures i < |DefaultTable(rt)| && DefaultTable(rt)[i].field == f
  {
    DefaultedFields(rt, f);
    i :| 0 <= i < |DefaultTable(rt)| && DefaultTable(rt)[i].field == f;
  }

  /** After `defaults` a field has the value it was set to, or else its declared default, and `defaults` fails exactly
      if one that is needed was never initialized; until then every field with a default is set. */
  lemma DefaultsAsDeclared(d: Draft, rt: Runtime, f: Field)
    ensures var all := Defaulted(d, rt).fields;
              && (f in d.fields ==> f in all && all[f] == d.fields[f])
              && (f in all && f !in d.fields ==> PresetOf(Declared(f, rt).preset) == Some(all[f]))
              && (DefaultError(d, rt).None? ==>
                    (f in all <==> f in d.fields || PresetOf(Declared(f, rt).preset).Some?))
    ensures DefaultError(d, rt).Some? <==>
            exists g :: g !in d.fields && Declared(g, rt).preset == Computed(None)
  {
    var ds, all := DefaultTable(rt), Defaulted(d, rt).fields;
    FillKeeps(d.fields, ds, |ds|, f);
    FillOutcome(d.fields, ds, |ds|);
    if f in all && f !in d.fields {
      var i :| 0 <= i < |ds| && ds[i] == Default(f, Some(all[f]));
      TableAsDeclared(rt, i);
    }
    if DefaultError(d, rt).None? && PresetOf(Declared(f, rt).preset).Some? {
      var i := InTable(rt, f);
    }
    FailsAsDeclared(d, rt);
  }

  lemma FailsAsDeclared(d: Draft, rt: Runtime)
    ensures DefaultError(d, rt).Some? <==> exists g :: g !in d.fields && Declared(g, rt).preset == Computed(None)
  {
    var ds, e := DefaultTable(rt), DefaultError(d, rt);
    FillOutcome(d.fields, ds, |ds|);
    if e.Some? {
      var i :| 0 <= i < |ds| && ds[i] == Default(e.value, None);
      TableAsDeclared(rt, i);
      FillKeeps(d.fields, ds, |ds|, e.value);
      assert e.value !in d.fields && Declared(e.value, rt).preset == Computed(None);
    } else if g :| g !in d.fields && Declared(g, rt).preset == Computed(None) {
      var i := InTable(rt, g);
      FillKeeps(d.fields, ds, |ds|, g);
      assert g in Defaulted(d, rt).fields;
      var j :| 0 <= j < |ds| && ds[j] == Default(g, Some(Defaulted(d, rt).fields[g]));
      TableAsDeclared(rt, j);
    }
  }

  /** The error of `check` is about the first field, in the order of the declarations, that is missing or beyond its
      limits, and says which of the two it is. */
  lemma FirstErrorReported(d: Draft, rt: Runtime) returns (i: nat)
    requires Checked(d).Some?
    ensures i < |Rules()| && Checked(d) == ErrorAt(d, rt, Rules()[i].field)
    ensures forall j | 0 <= j < i :: ErrorAt(d, rt, Rules()[j].field).None?
  {
    i := FirstOf(d, rt, |Rules()|);
  }

  /** What is wrong with one field of a draft. */
  function ErrorAt(d: Draft, rt: Runtime, f: Field): Option<ValidationError> {
    if f !in d.fields then (if Declared(f, rt).optional then None else Some(Missing(f)))
    else if Within(Declared(f, rt).limits, d.fields[f]) then None
    else Some(Invalid(f))
  }

  lemma ViolationExact(d: Draft, rt: Runtime, j: nat)
    requires j < |Rules()|
    ensures Violation(d.fields, Rules()[j]) == ErrorAt(d, rt, Rules()[j].field)
  {
    var f := Rules()[j].field;
    RuleAt(j);
    LimitsExact(f, rt, if f in d.fields then d.fields[f] else Num(0));
  }

  lemma {:induction false} FirstOf(d: Draft, rt: Runtime, n: nat) returns (i: nat)
    requires n <= |Rules()| && FirstViolation(d.fields, Rules(), n).Some?
    ensures i < n && FirstViolation(d.fields, Rules(), n) == ErrorAt(d, rt, Rules()[i].field)
    ensures forall j | 0 <= j < i :: ErrorAt(d, rt, Rules()[j].field).None?
  {
    ViolationExact(d, rt, n - 1);
    if FirstViolation(d.fields, Rules(), n - 1).Some? {
      i := FirstOf(d, rt, n - 1);
    } else {
      i := n - 1;
      NoViolation(d.fields, Rules(), n - 1);
      forall j | 0 <= j < i ensures ErrorAt(d, rt, Rules()[j].field).None? {
        ViolationExact(d, rt, j);
      }
    }
  }

  // ---------------------------------------------------------------- the edges

  /** The edges an insert names are those that are set, each under the table and the column that the queries load it
      through. */
  lemma EdgesAsLoaded(d: Draft, x: EdgeSpec)
    ensures x in SpecOf(d).edges ==> x.edge < |Edges(Accounts)| && x.ids != []
    ensures x.edge < |Edges(Accounts)| ==>
              (x in SpecOf(d).edges <==>
               x.ids != [] &&
               match Edges(Accounts)[x.edge]
               case EdgeDesc(Groups, M2M) => x.ids == d.groups
               case EdgeDesc(Proxies, M2O(ProxyID)) => d.proxy.Some? && x.ids == [d.proxy.value]
               case EdgeDesc(Accounts, M2O(ParentAccountID)) => d.parent.Some? && x.ids == [d.parent.value]
               case EdgeDesc(Accounts, O2M(ParentAccountID)) => x.ids == d.children
               case EdgeDesc(UsageLogs, O2M(AccountID)) => x.ids == d.usageLogs
               case _ => false)
  {
    EdgeListMembers(d, x);
    assert x.edge < |Edges(Accounts)| ==>
        x.edge == 0 || x.edge == 1 || x.edge == 2 || x.edge == 3 || x.edge == 4 || x.edge == 5;
  }

  lemma EdgeListMembers(d: Draft, x: EdgeSpec)
    ensures x in EdgeSpecs(d) <==>
            || x in EdgeIf(0, d.groups) || x in EdgeIf(1, IDList(d.proxy)) || x in EdgeIf(2, IDList(d.parent))
            || x in EdgeIf(3, d.children) || x in EdgeIf(4, d.usageLogs)
  {
  }
}
