/**
 From a row of the accounts table to an account and back: scanValues, assignValues, and the row an insert writes
 (backend/ent/account.go:168-417, backend/ent/account_create.go:682-904).
 */
module RowCodec {
  import opened Wrappers
  import opened Schema
  import opened AccountFields

  /** The Go types that scanValues allocates. */
  datatype Kind = Bytes | NullBool | NullFloat64 | NullInt64 | NullString | NullTime | UnknownType

  /** A scanned value; a NULL []byte is empty, the other NULLs are not Valid. */
  datatype Slot =
    | BytesSlot(bytes: string)
    | BoolSlot(flag: Option<bool>)
    | FloatSlot(rate: Option<real>)
    | IntSlot(num: Option<int>)
    | StringSlot(text: Option<string>)
    | TimeSlot(at: Option<int>)
    | AnySlot(any: Option<Value>)

  function KindOf(s: Slot): Kind {
    match s
    case BytesSlot(_) => Bytes
    case BoolSlot(_) => NullBool
    case FloatSlot(_) => NullFloat64
    case IntSlot(_) => NullInt64
    case StringSlot(_) => NullString
    case TimeSlot(_) => NullTime
    case AnySlot(_) => UnknownType
  }

  function NewSlot(k: Kind): (s: Slot)
    ensures KindOf(s) == k
  {
    match k
    case Bytes => BytesSlot("")
    case NullBool => BoolSlot(None)
    case NullFloat64 => FloatSlot(None)
    case NullInt64 => IntSlot(None)
    case NullString => StringSlot(None)
    case NullTime => TimeSlot(None)
    case UnknownType => AnySlot(None)
  }

  /** The switch of scanValues. */
  function ScanKind(c: Column): Kind {
    match c
    case ID => NullInt64
    case Ref(fk) => if fk == ProxyID || fk == ParentAccountID then NullInt64 else UnknownType
    case Plain(f) => (
      match f
      case Credentials | Extra => Bytes
      case AutoPauseOnExpired | Schedulable => NullBool
      case RateMultiplier => NullFloat64
      case ProxyFallbackOriginID | Concurrency | LoadFactor | Priority => NullInt64
      case Name | Notes | Platform | Type | Status | ErrorMessage | TempUnschedulableReason | SessionWindowStatus
         | QuotaDimension => NullString
      case CreatedAt | UpdatedAt | DeletedAt | LastUsedAt | ExpiresAt | RateLimitedAt | RateLimitResetAt | OverloadUntil
         | TempUnschedulableUntil | SessionWindowStart | SessionWindowEnd => NullTime)
    case _ => UnknownType
  }

  /** The type each case of assignValues asserts; None for its default case. */
  function AssertedKind(c: Column): Option<Kind> {
    match c
    case ID => Some(NullInt64)
    case Ref(fk) => if Nullable(fk) then Some(NullInt64) else None
    case Plain(f) => Some(
      match f
      case CreatedAt => NullTime case UpdatedAt => NullTime case DeletedAt => NullTime case Name => NullString
      case Notes => NullString case Platform => NullString case Type => NullString case Credentials => Bytes
      case Extra => Bytes case ProxyFallbackOriginID => NullInt64 case Concurrency => NullInt64
      case LoadFactor => NullInt64
      case Priority => NullInt64 case RateMultiplier => NullFloat64 case Status => NullString
      case ErrorMessage => NullString
      case LastUsedAt => NullTime case ExpiresAt => NullTime case AutoPauseOnExpired => NullBool
      case Schedulable => NullBool
      case RateLimitedAt => NullTime case RateLimitResetAt => NullTime case OverloadUntil => NullTime
      case TempUnschedulableUntil => NullTime case TempUnschedulableReason => NullString
      case SessionWindowStart => NullTime
      case SessionWindowEnd => NullTime case SessionWindowStatus => NullString case QuotaDimension => NullString)
    case _ => None
  }

  /** Both switches know the same columns, and agree on their types. */
  lemma KindsAgree(c: Column)
    ensures AssertedKind(c) == if ScanKind(c) == UnknownType then None else Some(ScanKind(c))
    ensures ScanKind(c) == Bytes <==> c == Column.Plain(Credentials) || c == Column.Plain(Extra)
  {
    match c
    case Plain(f) => if ScanKind(c) == Bytes { assert f == Credentials || f == Extra; }
    case _ =>
  }

  /** encoding/json on the two object columns. */
  datatype Codec = Codec(render: Doc -> string, parse: string -> Option<Doc>)

  ghost predicate Invertible(codec: Codec) {
    forall d: Doc :: codec.render(d) != "" && codec.parse(codec.render(d)) == Some(d)
  }

  datatype AssignError = Mismatch | UnexpectedType(c: Column) | Unmarshal(c: Column)

  /** An account being read, with the values of the columns it does not know. */
  datatype Loaded = Loaded(account: Account, selected: map<Column, Slot>)

  /** The field value in a slot, None for NULL. */
  function DatumIn(s: Slot): Option<Datum> {
    match s
    case BoolSlot(Some(b)) => Some(Flag(b))
    case FloatSlot(Some(r)) => Some(Rate(r))
    case IntSlot(Some(n)) => Some(Num(n))
    case StringSlot(Some(t)) => Some(Str(t))
    case TimeSlot(Some(t)) => Some(At(t))
    case _ => None
  }

  predicate IsNull(s: Slot) {
    if s.BytesSlot? then s.bytes == "" else DatumIn(s).None?
  }

  /** json.Unmarshal into a map field: null clears it, an object is merged into the entries that are there. */
  function Merge(cells: map<Column, Datum>, c: Column, d: Doc): Datum {
    if d.Doc? && c in cells && cells[c].Object? && cells[c].doc.Doc? then Object(Doc(cells[c].doc.entries + d.entries))
    else Object(d)
  }

  /** One turn of the loop of assignValues. */
  function AssignOne(codec: Codec, n: Loaded, c: Column, s: Slot): Result<Loaded, AssignError> {
    if AssertedKind(c).None? then Ok(n.(selected := n.selected[c := s]))
    else if AssertedKind(c).value != KindOf(s) then Err(UnexpectedType(c))
    else if c.ID? then Ok(n.(account := n.account.(id := if s.IntSlot? then s.num.GetOr(0) else 0)))
    else if IsNull(s) then Ok(n)
    else if s.BytesSlot? then
      var d := codec.parse(s.bytes);
      if d.None? then Err(Unmarshal(c))
      else Ok(n.(account := n.account.(cells := n.account.cells[c := Merge(n.account.cells, c, d.value)])))
    else if DatumIn(s).Some? then Ok(n.(account := n.account.(cells := n.account.cells[c := DatumIn(s).value])))
    else Ok(n)
  }

  /** The account after the first k columns. */
  function AssignUpTo(codec: Codec, n: Loaded, columns: seq<Column>, values: seq<Slot>, k: nat)
    : Result<Loaded, AssignError>
    requires k <= |columns| && k <= |values|
  {
    if k == 0 then Ok(n)
    else
      var before := AssignUpTo(codec, n, columns, values, k - 1);
      if before.Err? then before else AssignOne(codec, before.value, columns[k - 1], values[k - 1])
  }

  function Assigned(codec: Codec, n: Loaded, columns: seq<Column>, values: seq<Slot>): Result<Loaded, AssignError> {
    if |values| < |columns| then Err(Mismatch) else AssignUpTo(codec, n, columns, values, |columns|)
  }

  method ScanValues(columns: seq<Column>) returns (values: seq<Slot>)
    ensures |values| == |columns| && forall i | 0 <= i < |columns| :: values[i] == NewSlot(ScanKind(columns[i]))
  {
    values := [];
    var i := 0;
    while i < |columns|
      invariant 0 <= i <= |columns| && |values| == i
      invariant forall j | 0 <= j < i :: values[j] == NewSlot(ScanKind(columns[j]))
    {
      values := values + [NewSlot(ScanKind(columns[i]))];
      i := i + 1;
    }
  }

  class AccountNode {
    var id: int
    var cells: map<Column, Datum>
    var selected: map<Column, Slot>

    constructor ()
      ensures Contents() == Blank()
    {
      id, cells, selected := 0, map[], map[];
    }

    ghost function Contents(): Loaded
      reads this
    {
      Loaded(Account(id, cells), selected)
    }

    method AssignField(codec: Codec, c: Column, s: Slot) returns (err: Option<AssignError>)
      requires AssertedKind(c).Some? && !c.ID?
      modifies this
      ensures err.None? ==> AssignOne(codec, old(Contents()), c, s) == Ok(Contents())
      ensures err.Some? ==> AssignOne(codec, old(Contents()), c, s) == Err(err.value) && Contents() == old(Contents())
    {
      if AssertedKind(c).value != KindOf(s) {
        return Some(UnexpectedType(c));
      }
      if s.BytesSlot? && s.bytes != "" {
        var d := codec.parse(s.bytes);
        if d.None? {
          return Some(Unmarshal(c));
        }
        cells := cells[c := Merge(cells, c, d.value)];
      } else if DatumIn(s).Some? {
        cells := cells[c := DatumIn(s).value];
      }
      err := None;
    }

    /** On an error the columns before it have already been assigned. */
    method AssignValues(codec: Codec, columns: seq<Column>, values: seq<Slot>) returns (err: Option<AssignError>)
      modifies this
      ensures err.None? ==> Assigned(codec, old(Contents()), columns, values) == Ok(Contents())
      ensures err.Some? ==> Assigned(codec, old(Contents()), columns, values) == Err(err.value)
    {
      if |values| < |columns| {
        return Some(Mismatch);
      }
      ghost var was := Contents();
      var i := 0;
      while i < |columns|
        invariant 0 <= i <= |columns|
        invariant AssignUpTo(codec, was, columns, values, i) == Ok(Contents())
      {
        var c, s := columns[i], values[i];
        if AssertedKind(c).None? {
          selected := selected[c := s];
        } else if c.ID? {
          if !s.IntSlot? {
            ErrorStays(codec, was, columns, values, i + 1, |columns|);
            return Some(UnexpectedType(c));
          }
          id := s.num.GetOr(0);
        } else {
          err := AssignField(codec, c, s);
          if err.Some? {
            ErrorStays(codec, was, columns, values, i + 1, |columns|);
            return;
          }
        }
        i := i + 1;
      }
      err := None;
    }
  }

  lemma {:induction false} ErrorStays(codec: Codec, n: Loaded, columns: seq<Column>, values: seq<Slot>, i: nat, k: nat)
    requires i <= k <= |columns| && k <= |values| && AssignUpTo(codec, n, columns, values, i).Err?
    ensures AssignUpTo(codec, n, columns, values, k) == AssignUpTo(codec, n, columns, values, i)
  {
    if i != k { ErrorStays(codec, n, columns, values, i, k - 1); }
  }

  function Blank(): Loaded {
    Loaded(Account(0, map[]), map[])
  }

  // ---------------------------------------------------------------- scan and assign agree

  /** Slots allocated by scanValues, whatever has been scanned into them. */
  ghost predicate FromScan(columns: seq<Column>, values: seq<Slot>) {
    |values| == |columns| && forall i | 0 <= i < |columns| :: KindOf(values[i]) == ScanKind(columns[i])
  }

  predicate BadJson(codec: Codec, s: Slot) {
    s.BytesSlot? && s.bytes != "" && codec.parse(s.bytes).None?
  }

  /** On slots made by scanValues, assignValues can only fail because a JSON value does not parse. */
  lemma {:induction false} OnlyJsonFails(codec: Codec, n: Loaded, columns: seq<Column>, values: seq<Slot>, k: nat)
    requires FromScan(columns, values) && k <= |columns|
    ensures AssignUpTo(codec, n, columns, values, k).Err? <==> exists i | 0 <= i < k :: BadJson(codec, values[i])
    ensures AssignUpTo(codec, n, columns, values, k).Err? ==> AssignUpTo(codec, n, columns, values, k).error.Unmarshal?
  {
    if k != 0 {
      OnlyJsonFails(codec, n, columns, values, k - 1);
      KindsAgree(columns[k - 1]);
    }
  }

  /** A column that only NULLs are read for keeps what it had, from the i-th turn to the k-th. */
  lemma {:induction false} Untouched(codec: Codec, n: Loaded, columns: seq<Column>, values: seq<Slot>, i: nat, k: nat,
                                     c: Column)
    requires i <= k <= |columns| && k <= |values| && AssignUpTo(codec, n, columns, values, k).Ok?
    requires c != ID && forall j | i <= j < k :: columns[j] != c || IsNull(values[j])
    ensures AssignUpTo(codec, n, columns, values, i).Ok?
    ensures var a, b := AssignUpTo(codec, n, columns, values, i).value.account.cells,
            AssignUpTo(codec, n, columns, values, k).value.account.cells;
              (c in a <==> c in b) && (c in a ==> a[c] == b[c])
  {
    if i != k { Untouched(codec, n, columns, values, i, k - 1, c); }
  }

  /** Whatever the order and the repetitions, a column of a plain type ends as its last value that is not NULL. */
  lemma LastValueWins(codec: Codec, n: Loaded, columns: seq<Column>, values: seq<Slot>, i: nat, c: Column)
    requires FromScan(columns, values) && i < |columns| && columns[i] == c && c != ID
    requires DatumIn(values[i]).Some? && forall j | i < j < |columns| :: columns[j] != c || IsNull(values[j])
    requires Assigned(codec, n, columns, values).Ok?
    ensures var cells := Assigned(codec, n, columns, values).value.account.cells;
              c in cells && Some(cells[c]) == DatumIn(values[i])
  {
    KindsAgree(c);
    Untouched(codec, n, columns, values, i + 1, |columns|, c);
  }

  /** A column without a value keeps what the account had. */
  lemma NoValueKeeps(codec: Codec, n: Loaded, columns: seq<Column>, values: seq<Slot>, c: Column)
    requires Assigned(codec, n, columns, values).Ok? && c != ID
    requires forall j | 0 <= j < |columns| :: columns[j] != c || IsNull(values[j])
    ensures var cells := Assigned(codec, n, columns, values).value.account.cells;
              (c in cells <==> c in n.account.cells) && (c in cells ==> cells[c] == n.account.cells[c])
  {
    Untouched(codec, n, columns, values, 0, |columns|, c);
  }

  /** A JSON column ends as its last document laid over what was there before: it is that document exactly if that
      document is null, or has every entry that was there. */
  lemma JsonMerges(codec: Codec, n: Loaded, columns: seq<Column>, values: seq<Slot>, i: nat, c: Column)
    requires FromScan(columns, values) && i < |columns| && columns[i] == c && ScanKind(c) == Bytes
    requires !IsNull(values[i]) && forall j | i < j < |columns| :: columns[j] != c || IsNull(values[j])
    requires Assigned(codec, n, columns, values).Ok?
    ensures AssignUpTo(codec, n, columns, values, i).Ok? && codec.parse(values[i].bytes).Some?
    ensures var before, cells := AssignUpTo(codec, n, columns, values, i).value.account.cells,
            Assigned(codec, n, columns, values).value.account.cells;
            var d := codec.parse(values[i].bytes).value;
              && c in cells && cells[c] == Merge(before, c, d)
              && (cells[c] == Object(d) <==>
                    d.NilDoc? || c !in before || !before[c].Object? || before[c].doc.NilDoc?
                        || before[c].doc.entries.Keys <= d.entries.Keys)
  {
    KindsAgree(c);
    Untouched(codec, n, columns, values, i + 1, |columns|, c);
    var before, d := AssignUpTo(codec, n, columns, values, i).value.account.cells, codec.parse(values[i].bytes).value;
    if d.Doc? && c in before && before[c].Object? && before[c].doc.Doc? {
      var old', new' := before[c].doc.entries, d.entries;
      assert old' + new' == new' <==> old'.Keys <= new'.Keys by {
        if old' + new' == new' { assert (old' + new').Keys == old'.Keys + new'.Keys; }
      }
    }
  }

  /** The id ends as its last occurrence, NULL as 0. */
  lemma {:induction false} LastIDWins(codec: Codec, n: Loaded, columns: seq<Column>, values: seq<Slot>, i: nat, k: nat)
    requires FromScan(columns, values) && i < k <= |columns| && columns[i] == ID
    requires forall j | i < j < k :: columns[j] != ID
    requires AssignUpTo(codec, n, columns, values, k).Ok?
    ensures values[i].IntSlot? && AssignUpTo(codec, n, columns, values, k).value.account.id == values[i].num.GetOr(0)
  {
    if k - 1 > i { LastIDWins(codec, n, columns, values, i, k - 1); }
  }

  /** Columns an account does not have go to selectValues, the last occurrence of each. */
  lemma {:induction false} UnknownSelected(codec: Codec, n: Loaded, columns: seq<Column>, values: seq<Slot>, i: nat,
                                           k: nat)
    requires FromScan(columns, values) && i < k <= |columns| && ScanKind(columns[i]) == UnknownType
    requires AssignUpTo(codec, n, columns, values, k).Ok? && forall j | i < j < k :: columns[j] != columns[i]
    ensures columns[i] in AssignUpTo(codec, n, columns, values, k).value.selected
    ensures AssignUpTo(codec, n, columns, values, k).value.selected[columns[i]] == values[i]
  {
    KindsAgree(columns[i]);
    if k - 1 > i { UnknownSelected(codec, n, columns, values, i, k - 1); }
  }

  // ---------------------------------------------------------------- the row of an insert

  function Encode(codec: Codec, d: Datum): Value {
    match d
    case At(t) => Time(t)
    case Str(s) => Text(s)
    case Object(doc) => Json(codec.render(doc))
    case Num(n) => Int(n)
    case Flag(b) => Bool(b)
    case Rate(r) => Float(r)
  }

  /** The cells the first n field specs write. */
  function FieldRow(codec: Codec, fs: seq<FieldSpec>, n: nat): map<Column, Value>
    requires n <= |fs|
  {
    if n == 0 then map[]
    else FieldRow(codec, fs, n - 1)[Column.Plain(fs[n - 1].field) := Encode(codec, fs[n - 1].value)]
  }

  /** The proxy and the parent: the foreign key of the edge is a column of the account. */
  predicate OwnsColumn(e: EdgeSpec) {
    (e.edge == 1 || e.edge == 2) && e.ids != []
  }

  function EdgeColumn(e: EdgeSpec): Column
    requires OwnsColumn(e)
  {
    Ref(if e.edge == 1 then ProxyID else ParentAccountID)
  }

  lemma OwnColumns(e: EdgeSpec)
    requires e.edge < |Edges(Accounts)| && e.ids != []
    ensures OwnsColumn(e) <==> Edges(Accounts)[e.edge].shape.M2O?
    ensures OwnsColumn(e) ==> EdgeColumn(e) == Ref(Edges(Accounts)[e.edge].shape.fk)
  {
    assert e.edge == 0 || e.edge == 1 || e.edge == 2 || e.edge == 3 || e.edge == 4 || e.edge == 5;
  }

  /** Only a many-to-one edge is a column of the account's own row. */
  function OwnEdges(es: seq<EdgeSpec>): (os: seq<EdgeSpec>)
    ensures forall i | 0 <= i < |os| :: OwnsColumn(os[i])
  {
    if es == [] then [] else OwnEdges(es[..|es| - 1]) + (if OwnsColumn(es[|es| - 1]) then [es[|es| - 1]] else [])
  }

  function EdgeRow(es: seq<EdgeSpec>): map<Column, Value>
    requires forall i | 0 <= i < |es| :: OwnsColumn(es[i])
  {
    if es == [] then map[] else EdgeRow(es[..|es| - 1])[EdgeColumn(es[|es| - 1]) := Int(es[|es| - 1].ids[0])]
  }

  /** The row in the table once the database has given it an id. */
  function RowOf(codec: Codec, s: Spec, id: int): Row {
    Row(id, FieldRow(codec, s.fields, |s.fields|) + EdgeRow(OwnEdges(s.edges)))
  }

  lemma {:induction false} FieldRowExact(codec: Codec, fields: map<Field, Datum>, order: seq<Field>, c: Column)
    ensures var fs := FieldSpecs(fields, order);
            var m := FieldRow(codec, fs, |fs|);
              && (c in m <==> c.Plain? && c.f in fields && c.f in order)
              && (c in m ==> m[c] == Encode(codec, fields[c.f]))
  {
    if order != [] {
      var f, before := order[|order| - 1], FieldSpecs(fields, order[..|order| - 1]);
      assert order == order[..|order| - 1] + [f];
      FieldRowExact(codec, fields, order[..|order| - 1], c);
      if f in fields { FieldRowPrefix(codec, before, FieldSpec(f, fields[f]), |before|); }
    }
  }

  lemma {:induction false} FieldRowPrefix(codec: Codec, fs: seq<FieldSpec>, x: FieldSpec, n: nat)
    requires n <= |fs|
    ensures FieldRow(codec, fs + [x], n) == FieldRow(codec, fs, n)
  {
    if n != 0 { FieldRowPrefix(codec, fs, x, n - 1); }
  }

  function RefRow(fk: ForeignKey, id: Option<int>): map<Column, Value> {
    if id.Some? then map[Ref(fk) := Int(id.value)] else map[]
  }

  lemma OwnMore(es: seq<EdgeSpec>, edge: nat, ids: seq<int>)
    requires edge <= 4
    ensures OwnEdges(es + EdgeIf(edge, ids)) ==
            if edge == 1 || edge == 2 then OwnEdges(es) + EdgeIf(edge, ids) else OwnEdges(es)
  {
    var more := EdgeIf(edge, ids);
    if more == [] {
      assert es + more == es;
    } else {
      assert (es + more)[..|es|] == es;
    }
  }

  lemma OwnNone(ids: seq<int>)
    ensures OwnEdges(EdgeIf(0, ids)) == []
  {
  }

  lemma OwnTwo(es: seq<EdgeSpec>, proxy: seq<int>, parent: seq<int>)
    requires OwnEdges(es) == []
    ensures OwnEdges(es + EdgeIf(1, proxy) + EdgeIf(2, parent)) == EdgeIf(1, proxy) + EdgeIf(2, parent)
  {
    OwnMore(es, 1, proxy);
    OwnMore(es + EdgeIf(1, proxy), 2, parent);
    assert [] + EdgeIf(1, proxy) == EdgeIf(1, proxy);
  }

  lemma OwnLate(es: seq<EdgeSpec>, children: seq<int>, usageLogs: seq<int>)
    ensures OwnEdges(es + EdgeIf(3, children) + EdgeIf(4, usageLogs)) == OwnEdges(es)
  {
    OwnMore(es, 3, children);
    OwnMore(es + EdgeIf(3, children), 4, usageLogs);
  }

  /** The edges that are columns of the row are its two foreign keys. */
  lemma OwnEdgesOf(d: Draft)
    ensures OwnEdges(EdgeSpecs(d)) == EdgeIf(1, IDList(d.proxy)) + EdgeIf(2, IDList(d.parent))
  {
    OwnNone(d.groups);
    OwnTwo(EdgeIf(0, d.groups), IDList(d.proxy), IDList(d.parent));
    OwnLate(EdgeIf(0, d.groups) + EdgeIf(1, IDList(d.proxy)) + EdgeIf(2, IDList(d.parent)), d.children, d.usageLogs);
  }

  lemma EdgeRowExact(proxy: Option<int>, parent: Option<int>)
    ensures EdgeRow(EdgeIf(1, IDList(proxy)) + EdgeIf(2, IDList(parent))) ==
            RefRow(ProxyID, proxy) + RefRow(ParentAccountID, parent)
  {
    var b, p := EdgeIf(1, IDList(proxy)), EdgeIf(2, IDList(parent));
    if parent.None? { assert b + p == b; } else { assert (b + p)[..|b|] == b; }
    assert EdgeRow(b) == RefRow(ProxyID, proxy);
  }

  /** A row that holds the cells of an account, encoded, each of the kind its column is scanned as. */
  ghost predicate RowShows(codec: Codec, r: Row, a: Account) {
    forall c ::
      && (c in r.cells <==> c in a.cells)
      && (c in a.cells ==> r.cells[c] == Encode(codec, a.cells[c]) && DatumKind(a.cells[c]) == ScanKind(c) && c != ID)
  }

  lemma CellsMatch(codec: Codec, d: Draft, order: seq<Field>, c: Column)
    requires forall f :: f in order
    ensures var fs, node := FieldSpecs(d.fields, order), NodeOf(d).cells;
            var row := FieldRow(codec, fs, |fs|) + (RefRow(ProxyID, d.proxy) + RefRow(ParentAccountID, d.parent));
              (c in row <==> c in node) && (c in node ==> row[c] == Encode(codec, node[c]))
  {
    FieldRowExact(codec, d.fields, order, c);
    RefsMatch(codec, d, c);
    var fs := FieldSpecs(d.fields, order);
    var m := FieldRow(codec, fs, |fs|);
    assert c.Plain? ==>
        (c in m <==> c in FieldCells(d.fields)) && (c in m ==> m[c] == Encode(codec, FieldCells(d.fields)[c]));
  }

  lemma RefsMatch(codec: Codec, d: Draft, c: Column)
    ensures var row, node := RefRow(ProxyID, d.proxy) + RefRow(ParentAccountID, d.parent),
            RefCell(ProxyID, d.proxy) + RefCell(ParentAccountID, d.parent);
              (c in row <==> c in node) && (c in node ==> c.Ref? && row[c] == Encode(codec, node[c]))
  {
  }

  lemma CellExact(codec: Codec, d: Draft, id: int, c: Column)
    ensures var row, node := RowOf(codec, SpecOf(d), id).cells, NodeOf(d).cells;
              (c in row <==> c in node) && (c in node ==> row[c] == Encode(codec, node[c]))
  {
    EveryFieldOnce();
    OwnEdgesOf(d);
    EdgeRowExact(d.proxy, d.parent);
    CellsMatch(codec, d, AllFields(), c);
  }

  lemma CellKind(d: Draft, c: Column)
    requires Typed(d) && c in NodeOf(d).cells
    ensures DatumKind(NodeOf(d).cells[c]) == ScanKind(c) && c != ID
  {
    if c.Ref? {
      assert ScanKind(c) == NullInt64;
    }
  }

  /** The row an insert writes has exactly the cells of the account createSpec returns, encoded. */
  lemma RowExact(codec: Codec, d: Draft, id: int)
    requires Typed(d)
    ensures RowShows(codec, RowOf(codec, SpecOf(d), id), NodeOf(d))
  {
    var row, node := RowOf(codec, SpecOf(d), id).cells, NodeOf(d).cells;
    forall c
      ensures c in row <==> c in node
      ensures c in node ==> row[c] == Encode(codec, node[c]) && DatumKind(node[c]) == ScanKind(c) && c != ID
    {
      CellExact(codec, d, id, c);
      if c in node { CellKind(d, c); }
    }
  }

  /** The columns an insert writes. */
  function WrittenColumns(s: Spec): seq<Column> {
    var own := OwnEdges(s.edges);
    seq(|s.fields|, i requires 0 <= i < |s.fields| => Column.Plain(s.fields[i].field)) +
    seq(|own|, i requires 0 <= i < |own| => EdgeColumn(own[i]))
  }

  /** No column is written twice. */
  lemma WrittenOnce(d: Draft, i: nat, j: nat)
    requires i < j < |WrittenColumns(SpecOf(d))|
    ensures WrittenColumns(SpecOf(d))[i] != WrittenColumns(SpecOf(d))[j]
  {
    EveryFieldOnce();
    FieldSpecsOnce(d.fields, AllFields());
    OwnEdgesOf(d);
  }

  // ---------------------------------------------------------------- round trip

  function DatumKind(d: Datum): Kind {
    match d
    case At(_) => NullTime
    case Str(_) => NullString
    case Object(_) => Bytes
    case Num(_) => NullInt64
    case Flag(_) => NullBool
    case Rate(_) => NullFloat64
  }

  /** Every field holds a value of its Go type. */
  ghost predicate Typed(d: Draft) {
    forall f | f in d.fields :: DatumKind(d.fields[f]) == ScanKind(Column.Plain(f))
  }

  /** What the driver scans into a slot for a column of a row. */
  function SlotOf(r: Row, c: Column): Slot {
    var v: Option<Value> := if c.ID? then Some(Int(r.id)) else if c in r.cells then Some(r.cells[c]) else None;
    match (ScanKind(c), v)
    case (Bytes, Some(Json(b))) => BytesSlot(b)
    case (NullBool, Some(Bool(b))) => BoolSlot(Some(b))
    case (NullFloat64, Some(Float(x))) => FloatSlot(Some(x))
    case (NullInt64, Some(Int(n))) => IntSlot(Some(n))
    case (NullString, Some(Text(t))) => StringSlot(Some(t))
    case (NullTime, Some(Time(t))) => TimeSlot(Some(t))
    case (UnknownType, _) => AnySlot(v)
    case (k, _) => NewSlot(k)
  }

  function ScanRow(r: Row, columns: seq<Column>): (values: seq<Slot>)
    ensures |values| == |columns| && forall i | 0 <= i < |columns| :: values[i] == SlotOf(r, columns[i])
  {
    seq(|columns|, i requires 0 <= i < |columns| => SlotOf(r, columns[i]))
  }

  /** What has been read of an account once the first k columns are assigned. */
  function ReadSoFar(a: Account, id: int, columns: seq<Column>, k: nat): Loaded
    requires k <= |columns|
  {
    Loaded(Account(if ID in columns[..k] then id else 0, map c | c in a.cells && c in columns[..k] :: a.cells[c]),
        map[])
  }

  /** Reading one more column of the row. */
  lemma ReadOne(codec: Codec, r: Row, a: Account, columns: seq<Column>, k: nat)
    requires Invertible(codec) && RowShows(codec, r, a) && k < |columns| && ScanKind(columns[k]) != UnknownType
    ensures AssignOne(codec, ReadSoFar(a, r.id, columns, k), columns[k], SlotOf(r, columns[k])) ==
            Ok(ReadSoFar(a, r.id, columns, k + 1))
  {
    var c := columns[k];
    var was, now := ReadSoFar(a, r.id, columns, k), ReadSoFar(a, r.id, columns, k + 1);
    KindsAgree(c);
    assert columns[..k + 1] == columns[..k] + [c];
    if c in a.cells {
      ReadCell(codec, r, a, c, was);
      assert was.account.cells[c := a.cells[c]] == now.account.cells;
    } else {
      assert was.account.cells == now.account.cells;
    }
  }

  lemma ReadCell(codec: Codec, r: Row, a: Account, c: Column, was: Loaded)
    requires Invertible(codec) && RowShows(codec, r, a) && ScanKind(c) != UnknownType && c in a.cells
    requires c in was.account.cells ==> was.account.cells[c] == a.cells[c]
    ensures AssignOne(codec, was, c, SlotOf(r, c)) ==
            Ok(was.(account := was.account.(cells := was.account.cells[c := a.cells[c]])))
  {
    KindsAgree(c);
    if a.cells[c].Object? {
      var doc := a.cells[c].doc;
      assert codec.parse(codec.render(doc)) == Some(doc);
      assert doc.Doc? ==> doc.entries + doc.entries == doc.entries;
    }
  }

  /** Columns an account has. */
  predicate Known(columns: seq<Column>) {
    forall i | 0 <= i < |columns| :: ScanKind(columns[i]) != UnknownType
  }

  lemma ReadNext(codec: Codec, r: Row, a: Account, columns: seq<Column>, values: seq<Slot>, k: nat)
    requires Invertible(codec) && RowShows(codec, r, a) && Known(columns)
    requires values == ScanRow(r, columns) && k < |columns|
    requires AssignUpTo(codec, Blank(), columns, values, k) == Ok(ReadSoFar(a, r.id, columns, k))
    ensures AssignUpTo(codec, Blank(), columns, values, k + 1) == Ok(ReadSoFar(a, r.id, columns, k + 1))
  {
    ReadOne(codec, r, a, columns, k);
  }

  lemma {:induction false} ReadAll(codec: Codec, r: Row, a: Account, columns: seq<Column>, values: seq<Slot>, k: nat)
    requires Invertible(codec) && RowShows(codec, r, a) && Known(columns)
    requires values == ScanRow(r, columns) && k <= |columns|
    ensures AssignUpTo(codec, Blank(), columns, values, k) == Ok(ReadSoFar(a, r.id, columns, k))
  {
    if k == 0 {
      assert ReadSoFar(a, r.id, columns, 0) == Blank();
    } else {
      ReadAll(codec, r, a, columns, values, k - 1);
      ReadNext(codec, r, a, columns, values, k - 1);
    }
  }

  lemma ReadsBack(codec: Codec, r: Row, a: Account, columns: seq<Column>)
    requires Invertible(codec) && RowShows(codec, r, a)
    requires Known(columns) && ID in columns && forall c | c in a.cells :: c in columns
    ensures Assigned(codec, Blank(), columns, ScanRow(r, columns)) == Ok(Loaded(a.(id := r.id), map[]))
  {
    ReadAll(codec, r, a, columns, ScanRow(r, columns), |columns|);
    assert columns[..|columns|] == columns;
    assert ReadSoFar(a, r.id, columns, |columns|).account.cells == a.cells;
  }

  /** Inserting a draft and reading its row back, through any list of columns that names the id and every column that
      was written, in any order and with any repetition, gives the account that createSpec returned, with its id. */
  lemma RowRoundTrip(codec: Codec, d: Draft, id: int, columns: seq<Column>)
    requires Invertible(codec) && Typed(d)
    requires Known(columns) && ID in columns && forall c | c in NodeOf(d).cells :: c in columns
    ensures Assigned(codec, Blank(), columns, ScanRow(RowOf(codec, SpecOf(d), id), columns)) ==
            Ok(Loaded(NodeOf(d).(id := id), map[]))
  {
    RowExact(codec, d, id);
    ReadsBack(codec, RowOf(codec, SpecOf(d), id), NodeOf(d), columns);
  }
}
