/**
 The contents of an account that is being created: its default values, its validation, and the insert it turns into
 (backend/ent/account_create.go:526-904, backend/ent/schema/account.go).
 */
module AccountFields {
  import opened Wrappers
  import opened Schema

  /** A decoded JSON object, or a nil map. */
  datatype Doc = NilDoc | Doc(entries: map<string, string>)

  /** The value of a field as Go holds it. */
  datatype Datum = At(time: int) | Str(s: string) | Object(doc: Doc) | Num(i: int) | Flag(b: bool) | Rate(r: real)

  /** What has been set on a mutation: fields, the ids of its unique edges, and those of the others. */
  datatype Draft = Draft(
    fields: map<Field, Datum>, proxy: Option<int>, parent: Option<int>, groups: seq<int>, children: seq<int>,
    usageLogs: seq<int>)

  /** The fields in the order the generated code goes through them. */
  function AllFields(): seq<Field> {
    [ CreatedAt, UpdatedAt, DeletedAt, Name, Notes, Platform, Type, Credentials, Extra,
      ProxyFallbackOriginID, Concurrency, LoadFactor, Priority, RateMultiplier, Status,
      ErrorMessage, LastUsedAt, ExpiresAt, AutoPauseOnExpired, Schedulable, RateLimitedAt,
      RateLimitResetAt, OverloadUntil, TempUnschedulableUntil, TempUnschedulableReason,
      SessionWindowStart, SessionWindowEnd, SessionWindowStatus, QuotaDimension ]
  }

  /** Where a field stands in that order. */
  function Rank(f: Field): (r: nat)
    ensures r < |AllFields()| && AllFields()[r] == f
  {
    match f
    case CreatedAt => 0 case UpdatedAt => 1 case DeletedAt => 2 case Name => 3 case Notes => 4 case Platform => 5
    case Type => 6 case Credentials => 7 case Extra => 8 case ProxyFallbackOriginID => 9 case Concurrency => 10
    case LoadFactor => 11 case Priority => 12 case RateMultiplier => 13 case Status => 14 case ErrorMessage => 15
    case LastUsedAt => 16 case ExpiresAt => 17 case AutoPauseOnExpired => 18 case Schedulable => 19
    case RateLimitedAt => 20 case RateLimitResetAt => 21 case OverloadUntil => 22 case TempUnschedulableUntil => 23
    case TempUnschedulableReason => 24 case SessionWindowStart => 25 case SessionWindowEnd => 26
    case SessionWindowStatus => 27 case QuotaDimension => 28
  }

  lemma RankAt(i: nat)
    requires i < |AllFields()|
    ensures Rank(AllFields()[i]) == i
  {
    if i < 10 {
      RankLow(i);
    } else if i < 20 {
      RankMiddle(i);
    } else {
      RankHigh(i);
    }
  }

  lemma RankLow(i: nat)
    requires i < 10
    ensures Rank(AllFields()[i]) == i
  {
    assert i == 0 || i == 1 || i == 2 || i == 3 || i == 4 || i == 5 || i == 6 || i == 7 || i == 8 || i == 9;
  }

  lemma RankMiddle(i: nat)
    requires 10 <= i < 20
    ensures Rank(AllFields()[i]) == i
  {
    assert i == 10 || i == 11 || i == 12 || i == 13 || i == 14 || i == 15 || i == 16 || i == 17 || i == 18 || i == 19;
  }

  lemma RankHigh(i: nat)
    requires 20 <= i < |AllFields()|
    ensures Rank(AllFields()[i]) == i
  {
    assert i == 20 || i == 21 || i == 22 || i == 23 || i == 24 || i == 25 || i == 26 || i == 27 || i == 28;
  }

  /** The fields of an account that are pointers in Go and optional in the schema. */
  predicate Nillable(f: Field) {
    match f
    case DeletedAt | Notes | ProxyFallbackOriginID | LoadFactor | ErrorMessage | LastUsedAt | ExpiresAt | RateLimitedAt
       | RateLimitResetAt | OverloadUntil | TempUnschedulableUntil | TempUnschedulableReason | SessionWindowStart
       | SessionWindowEnd | SessionWindowStatus => true
    case _ => false
  }

  // ---------------------------------------------------------------- defaults

  /** What the default functions return when they are called, None for one that was never initialized. */
  datatype Runtime = Runtime(
    createdAt: Option<int>, updatedAt: Option<int>, credentials: Option<map<string, string>>,
    extra: Option<map<string, string>>)

  datatype Default = Default(field: Field, value: Option<Datum>)

  function TimeOf(t: Option<int>): Option<Datum> {
    if t.Some? then Some(At(t.value)) else None
  }

  function DocOf(m: Option<map<string, string>>): Option<Datum> {
    if m.Some? then Some(Object(Doc(m.value))) else None
  }

  function DefaultTable(rt: Runtime): seq<Default> {
    [ Default(CreatedAt, TimeOf(rt.createdAt)),
      Default(UpdatedAt, TimeOf(rt.updatedAt)),
      Default(Credentials, DocOf(rt.credentials)),
      Default(Extra, DocOf(rt.extra)),
      Default(Concurrency, Some(Num(3))),
      Default(Priority, Some(Num(50))),
      Default(RateMultiplier, Some(Rate(1.0))),
      Default(Status, Some(Str("active"))),
      Default(AutoPauseOnExpired, Some(Flag(true))),
      Default(Schedulable, Some(Flag(true))),
      Default(QuotaDimension, Some(Str("global"))) ]
  }

  datatype Filled = Filled(fields: map<Field, Datum>, err: Option<Field>)

  /** The fields after the first n entries of the table: an unset field gets its default; the first default that is not
      initialized ends the run with an error. */
  function Fill(fields: map<Field, Datum>, ds: seq<Default>, n: nat): Filled
    requires n <= |ds|
  {
    if n == 0 then Filled(fields, None)
    else
      var before, d := Fill(fields, ds, n - 1), ds[n - 1];
      if before.err.Some? || d.field in before.fields then before
      else if d.value.None? then before.(err := Some(d.field))
      else before.(fields := before.fields[d.field := d.value.value])
  }

  function Defaulted(d: Draft, rt: Runtime): Draft {
    d.(fields := Fill(d.fields, DefaultTable(rt), |DefaultTable(rt)|).fields)
  }

  function DefaultError(d: Draft, rt: Runtime): Option<Field> {
    Fill(d.fields, DefaultTable(rt), |DefaultTable(rt)|).err
  }

  /** Defaults keep every field that is set, and add nothing but what the table says. */
  lemma {:induction false} FillKeeps(fields: map<Field, Datum>, ds: seq<Default>, n: nat, f: Field)
    requires n <= |ds|
    ensures var r := Fill(fields, ds, n).fields;
              && (f in fields ==> f in r && r[f] == fields[f])
              && (f in r ==> f in fields || exists i :: 0 <= i < n && ds[i] == Default(f, Some(r[f])))
  {
    if n != 0 { FillKeeps(fields, ds, n - 1, f); }
  }

  /** On success no field of the table is left unset; an error names one that is, whose default is not initialized. */
  lemma {:induction false} FillOutcome(fields: map<Field, Datum>, ds: seq<Default>, n: nat)
    requires n <= |ds|
    ensures var r := Fill(fields, ds, n);
              && (r.err.None? ==> forall i | 0 <= i < n :: ds[i].field in r.fields)
              && (r.err.Some? ==>
                    r.err.value !in r.fields && exists i :: 0 <= i < n && ds[i] == Default(r.err.value, None))
  {
    if n != 0 { FillOutcome(fields, ds, n - 1); }
  }

  /** Filling again what has been filled before changes nothing, and reports the same error. */
  lemma {:induction false} FillAgain(fields: map<Field, Datum>, ds: seq<Default>, n: nat, m: nat)
    requires n <= m <= |ds|
    ensures var r := Fill(fields, ds, m);
              Fill(r.fields, ds, n) == Filled(r.fields, Fill(fields, ds, n).err)
  {
    if n != 0 {
      FillAgain(fields, ds, n - 1, m);
      FillGrows(fields, ds, n, m);
      FillOutcome(fields, ds, m);
    }
  }

  /** Once an error is reported it stays, and the fields with it; a field that is set stays set. */
  lemma {:induction false} FillGrows(fields: map<Field, Datum>, ds: seq<Default>, n: nat, m: nat)
    requires n <= m <= |ds|
    ensures Fill(fields, ds, n).err.Some? ==> Fill(fields, ds, m) == Fill(fields, ds, n)
    ensures Fill(fields, ds, n).fields.Keys <= Fill(fields, ds, m).fields.Keys
  {
    if n != m { FillGrows(fields, ds, n, m - 1); }
  }

  /** `defaults` is idempotent, and never overwrites a field that is set. */
  lemma DefaultsIdempotent(d: Draft, rt: Runtime, f: Field)
    ensures Defaulted(Defaulted(d, rt), rt) == Defaulted(d, rt)
    ensures DefaultError(Defaulted(d, rt), rt) == DefaultError(d, rt)
    ensures f in d.fields ==> f in Defaulted(d, rt).fields && Defaulted(d, rt).fields[f] == d.fields[f]
  {
    FillAgain(d.fields, DefaultTable(rt), |DefaultTable(rt)|, |DefaultTable(rt)|);
    FillKeeps(d.fields, DefaultTable(rt), |DefaultTable(rt)|, f);
  }

  // ---------------------------------------------------------------- validation

  datatype Rule = Rule(field: Field, required: bool, validated: bool)

  /** The checks in the order they are made. */
  function Rules(): seq<Rule> {
    [ Rule(CreatedAt, true, false), Rule(UpdatedAt, true, false), Rule(Name, true, true), Rule(Platform, true, true),
      Rule(Type, true, true), Rule(Credentials, true, false), Rule(Extra, true, false), Rule(Concurrency, true, false),
      Rule(Priority, true, false), Rule(RateMultiplier, true, false), Rule(Status, true, true),
      Rule(AutoPauseOnExpired, true, false), Rule(Schedulable, true, false), Rule(SessionWindowStatus, false, true),
      Rule(QuotaDimension, true, true) ]
  }

  datatype ValidationError = Missing(f: Field) | Invalid(f: Field)

  /** The validators of the schema; strings are byte strings, so a length counts bytes. */
  predicate ValidText(f: Field, v: Datum) {
    v.Str? &&
    match f
    case Name => 0 < |v.s| <= 100
    case Platform => 0 < |v.s| <= 50
    case Type => 0 < |v.s| <= 20
    case Status | SessionWindowStatus => |v.s| <= 20
    case QuotaDimension => v.s == "global" || v.s == "spark"
    case _ => true
  }

  function Violation(fields: map<Field, Datum>, r: Rule): Option<ValidationError> {
    if r.field !in fields then (if r.required then Some(Missing(r.field)) else None)
    else if r.validated && !ValidText(r.field, fields[r.field]) then Some(Invalid(r.field))
    else None
  }

  /** The first violation among the first n rules. */
  function FirstViolation(fields: map<Field, Datum>, rs: seq<Rule>, n: nat): Option<ValidationError>
    requires n <= |rs|
  {
    if n == 0 then None
    else
      var before := FirstViolation(fields, rs, n - 1);
      if before.Some? then before else Violation(fields, rs[n - 1])
  }

  function Checked(d: Draft): Option<ValidationError> {
    FirstViolation(d.fields, Rules(), |Rules()|)
  }

  lemma {:induction false} NoViolation(fields: map<Field, Datum>, rs: seq<Rule>, n: nat)
    requires n <= |rs|
    ensures FirstViolation(fields, rs, n).None? <==> forall i | 0 <= i < n :: Violation(fields, rs[i]).None?
  {
    if n != 0 { NoViolation(fields, rs, n - 1); }
  }

  predicate Validated(f: Field) {
    f == Name || f == Platform || f == Type || f == Status || f == SessionWindowStatus || f == QuotaDimension
  }

  /** A draft that may be inserted: every field the schema does not make optional is set, and set fields are valid. */
  ghost predicate Complete(d: Draft) {
    && (forall f :: !Nillable(f) ==> f in d.fields)
    && (forall f :: f in d.fields && Validated(f) ==> ValidText(f, d.fields[f]))
  }

  /** The index of the rule about a field. */
  function RuleOf(f: Field): (i: nat)
    requires !Nillable(f) || Validated(f)
    ensures i < |Rules()| && Rules()[i] == Rule(f, !Nillable(f), Validated(f))
  {
    match f
    case CreatedAt => 0 case UpdatedAt => 1 case Name => 2 case Platform => 3 case Type => 4 case Credentials => 5
    case Extra => 6 case Concurrency => 7 case Priority => 8 case RateMultiplier => 9 case Status => 10
    case AutoPauseOnExpired => 11 case Schedulable => 12 case SessionWindowStatus => 13 case _ => 14
  }

  lemma RuleAt(i: nat)
    requires i < |Rules()|
    ensures Rules()[i].required == !Nillable(Rules()[i].field) && Rules()[i].validated == Validated(Rules()[i].field)
  {
  }

  /** `check` accepts exactly the complete drafts. */
  lemma CheckExact(d: Draft)
    ensures Checked(d).None? <==> Complete(d)
  {
    NoViolation(d.fields, Rules(), |Rules()|);
    if Checked(d).None? {
      forall f: Field | !Nillable(f) || Validated(f)
        ensures Violation(d.fields, Rule(f, !Nillable(f), Validated(f))).None?
      {
        assert Rules()[RuleOf(f)] == Rule(f, !Nillable(f), Validated(f));
      }
    }
    if Complete(d) {
      forall i | 0 <= i < |Rules()| ensures Violation(d.fields, Rules()[i]).None? {
        RuleAt(i);
      }
    }
  }

  /** A default that could not be filled in is caught by `check`: dropping its error loses nothing. */
  lemma DefaultErrorCaught(d: Draft, rt: Runtime)
    ensures DefaultError(d, rt).Some? ==> Checked(Defaulted(d, rt)).Some?
  {
    var e := DefaultError(d, rt);
    if e.Some? {
      FillOutcome(d.fields, DefaultTable(rt), |DefaultTable(rt)|);
      assert !Nillable(e.value);
      CheckExact(Defaulted(d, rt));
    }
  }

  /** The fields with a default: the mandatory ones but for the name, the platform and the type. */
  lemma DefaultedFields(rt: Runtime, f: Field)
    ensures (exists i :: 0 <= i < |DefaultTable(rt)| && DefaultTable(rt)[i].field == f) <==>
            !Nillable(f) && f != Name && f != Platform && f != Type
  {
    if !Nillable(f) && f != Name && f != Platform && f != Type {
      var i := match f
        case CreatedAt => 0 case UpdatedAt => 1 case Credentials => 2 case Extra => 3
        case Concurrency => 4 case Priority => 5
        case RateMultiplier => 6 case Status => 7 case AutoPauseOnExpired => 8 case Schedulable => 9 case _ => 10;
      assert DefaultTable(rt)[i].field == f;
    }
  }

  /** The constant defaults are valid. */
  lemma DefaultsValid(rt: Runtime, i: nat)
    requires i < |DefaultTable(rt)| && DefaultTable(rt)[i].value.Some? && Validated(DefaultTable(rt)[i].field)
    ensures ValidText(DefaultTable(rt)[i].field, DefaultTable(rt)[i].value.value)
  {
  }

  lemma DefaultedKeeps(d: Draft, rt: Runtime, f: Field)
    ensures var all := Defaulted(d, rt);
              && (f in d.fields ==> f in all.fields && all.fields[f] == d.fields[f])
              && (f in all.fields && f !in d.fields ==> f != Name && f != Platform && f != Type)
              && (f in all.fields && f !in d.fields && Validated(f) ==> ValidText(f, all.fields[f]))
  {
    var all, ds := Defaulted(d, rt), DefaultTable(rt);
    FillKeeps(d.fields, ds, |ds|, f);
    if f in all.fields && f !in d.fields {
      var i :| 0 <= i < |ds| && ds[i] == Default(f, Some(all.fields[f]));
      DefaultedFields(rt, f);
      if Validated(f) { DefaultsValid(rt, i); }
    }
  }

  lemma DefaultedAll(d: Draft, rt: Runtime, f: Field)
    requires DefaultError(d, rt).None? && !Nillable(f) && f != Name && f != Platform && f != Type
    ensures f in Defaulted(d, rt).fields
  {
    FillOutcome(d.fields, DefaultTable(rt), |DefaultTable(rt)|);
    DefaultedFields(rt, f);
  }

  /** After its defaults a draft passes `check` exactly if the caller has set the name, the platform and the type,
      nothing that is set is invalid, and every default that is needed is initialized. */
  lemma CallerSets(d: Draft, rt: Runtime)
    ensures Checked(Defaulted(d, rt)).None? <==>
            && Name in d.fields && Platform in d.fields && Type in d.fields
            && (forall f :: f in d.fields && Validated(f) ==> ValidText(f, d.fields[f]))
            && DefaultError(d, rt).None?
  {
    var all := Defaulted(d, rt);
    CheckExact(all);
    DefaultErrorCaught(d, rt);
    forall f: Field
      ensures f in d.fields ==> f in all.fields && all.fields[f] == d.fields[f]
      ensures f in all.fields && f !in d.fields ==> f != Name && f != Platform && f != Type
      ensures f in all.fields && f !in d.fields && Validated(f) ==> ValidText(f, all.fields[f])
      ensures DefaultError(d, rt).None? && !Nillable(f) && f != Name && f != Platform && f != Type ==> f in all.fields
    {
      DefaultedKeeps(d, rt, f);
      if DefaultError(d, rt).None? && !Nillable(f) && f != Name && f != Platform && f != Type {
        DefaultedAll(d, rt, f);
      }
    }
  }

  // ---------------------------------------------------------------- the insert

  datatype FieldSpec = FieldSpec(field: Field, value: Datum)

  /** An edge of the insert: its index among the account's edges, and the ids it connects. */
  datatype EdgeSpec = EdgeSpec(edge: nat, ids: seq<int>)

  datatype Spec = Spec(fields: seq<FieldSpec>, edges: seq<EdgeSpec>)

  /** An account as a Go value: a field that is nil, or still its zero value, has no cell. */
  datatype Account = Account(id: int, cells: map<Column, Datum>)

  /** The fields that are set, in the given order. */
  function FieldSpecs(fields: map<Field, Datum>, order: seq<Field>): seq<FieldSpec> {
    if order == [] then []
    else
      var before, f := FieldSpecs(fields, order[..|order| - 1]), order[|order| - 1];
      if f in fields then before + [FieldSpec(f, fields[f])] else before
  }

  function IDList(id: Option<int>): seq<int> {
    if id.Some? then [id.value] else []
  }

  function EdgeIf(edge: nat, ids: seq<int>): seq<EdgeSpec> {
    if ids == [] then [] else [EdgeSpec(edge, ids)]
  }

  function EdgeSpecs(d: Draft): seq<EdgeSpec> {
    EdgeIf(0, d.groups) + EdgeIf(1, IDList(d.proxy)) + EdgeIf(2, IDList(d.parent)) + EdgeIf(3, d.children) +
    EdgeIf(4, d.usageLogs)
  }

  /** The insert a draft turns into. */
  function SpecOf(d: Draft): Spec {
    Spec(FieldSpecs(d.fields, AllFields()), EdgeSpecs(d))
  }

  function RefCell(fk: ForeignKey, id: Option<int>): map<Column, Datum> {
    if id.Some? then map[Ref(fk) := Num(id.value)] else map[]
  }

  function FieldCells(fields: map<Field, Datum>): (m: map<Column, Datum>)
    ensures forall c :: c in m <==> c.Plain? && c.f in fields
    ensures forall c | c in m :: m[c] == fields[c.f]
  {
    map f | f in fields :: Column.Plain(f) := fields[f]
  }

  /** The account that createSpec returns beside the insert. */
  function NodeOf(d: Draft): Account {
    Account(0, FieldCells(d.fields) + RefCell(ProxyID, d.proxy) + RefCell(ParentAccountID, d.parent))
  }

  /** The insert names exactly the fields that are set, each with its value. */
  lemma {:induction false} FieldSpecsExact(fields: map<Field, Datum>, order: seq<Field>, x: FieldSpec)
    ensures x in FieldSpecs(fields, order) <==> x.field in fields && x.value == fields[x.field] && x.field in order
  {
    if order != [] {
      FieldSpecsExact(fields, order[..|order| - 1], x);
      assert order == order[..|order| - 1] + [order[|order| - 1]];
    }
  }

  ghost predicate NamedOnce(fs: seq<FieldSpec>) {
    forall i, j | 0 <= i < j < |fs| :: fs[i].field != fs[j].field
  }

  /** It names each of them once. */
  lemma {:induction false} FieldSpecsOnce(fields: map<Field, Datum>, order: seq<Field>)
    requires forall i, j | 0 <= i < j < |order| :: order[i] != order[j]
    ensures NamedOnce(FieldSpecs(fields, order))
  {
    if order != [] {
      var front := FieldSpecs(fields, order[..|order| - 1]);
      FieldSpecsOnce(fields, order[..|order| - 1]);
      forall x | x in front ensures x.field != order[|order| - 1] {
        FieldSpecsExact(fields, order[..|order| - 1], x);
      }
    }
  }

  /** Every field has its place in the order, and only one. */
  lemma EveryFieldOnce()
    ensures forall f :: f in AllFields()
    ensures forall i, j | 0 <= i < j < |AllFields()| :: AllFields()[i] != AllFields()[j]
  {
    forall f: Field ensures f in AllFields() {
      assert AllFields()[Rank(f)] == f;
    }
    forall i, j | 0 <= i < j < |AllFields()| ensures AllFields()[i] != AllFields()[j] {
      RankAt(i);
      RankAt(j);
    }
  }
}
