/**
 What one statement returns, over its predicates, order terms, limit and offset themselves, and what assignValues
 makes of the columns it fetches (backend/ent/account_query.go:550-583, :858-902, backend/ent/account.go:168-417).
 */
module Statements {
  import opened Wrappers
  import opened Schema
  import opened Plan
  import opened Eager
  import opened Selection
  import opened Ordering
  import opened Relations
  import AccountFields
  import RowCodec
  import Reruns

  // ---------------------------------------------------------------- where

  /** A predicate of the caller, or one that a traverser of the builder appends. */
  ghost predicate Demands(p: Plan, f: Row -> bool) {
    Custom(f) in p.preds || Traverser(Custom(f)) in p.inters
  }

  /** The builder holds no predicates of loaders. */
  ghost predicate ByCallers(p: Plan) {
    && p.joins == []
    && (forall i | 0 <= i < |p.preds| :: p.preds[i].Custom?)
    && forall i | 0 <= i < |p.inters| :: p.inters[i].Traverser? ==> p.inters[i].pred.Custom?
  }

  lemma {:induction false} TraverserMembers(inters: seq<Interceptor>, x: Pred)
    ensures x in TraverserPreds(inters) <==> Traverser(x) in inters
  {
    if inters != [] {
      TraverserMembers(inters[..|inters| - 1], x);
      assert inters == inters[..|inters| - 1] + [inters[|inters| - 1]];
    }
  }

  lemma HoldsMembers(ps: seq<Pred>, r: Row)
    ensures HoldsAll(ps, r) <==> forall x | x in ps :: Holds(x, r)
  {
  }

  /** Every row a run returns satisfies every demand on it; and an unpaged query returns each such row of its table, as
      often as the table has it, and no other. */
  lemma WhereExact(db: Database, p: Plan, n: Row)
    requires ByCallers(p)
    ensures n in NodeRows(db, RequestOf(Prepared(p))) ==>
              n in Rows(db, p.table) && forall f | Demands(p, f) :: f(n)
    ensures p.limit.GetOr(0) == 0 && p.offset.GetOr(0) == 0 ==>
              multiset(NodeRows(db, RequestOf(Prepared(p))))[n] ==
              if forall f | Demands(p, f) :: f(n) then multiset(Rows(db, p.table))[n] else 0
  {
    var q := RequestOf(Prepared(p));
    DemandsHold(p, n);
    if n in NodeRows(db, q) {
      var i :| 0 <= i < |NodeRows(db, q)| && NodeRows(db, q)[i] == n;
      NodeRowsHold(db, q, i);
      FromTable(db, q, i);
    }
    if p.limit.GetOr(0) == 0 && p.offset.GetOr(0) == 0 { PlainCounts(db, q, n); }
  }

  lemma DemandsHold(p: Plan, n: Row)
    requires ByCallers(p)
    ensures HoldsAll(Prepared(p).preds, n) <==> forall f | Demands(p, f) :: f(n)
  {
    var ps := Prepared(p).preds;
    HoldsMembers(ps, n);
    forall x ensures x in ps <==> x in p.preds || Traverser(x) in p.inters {
      TraverserMembers(p.inters, x);
    }
    if HoldsAll(ps, n) {
      forall f | Demands(p, f) ensures f(n) {
        assert Custom(f) in ps && Holds(Custom(f), n);
      }
    }
    if forall f | Demands(p, f) :: f(n) {
      forall x | x in ps ensures Holds(x, n) {
        assert x.Custom?;
        assert Demands(p, x.f);
      }
    }
  }

  // ---------------------------------------------------------------- order

  /** Before the first term on which two rows differ, a has the smaller key there, or they agree on all. */
  ghost predicate Lexicographic(order: seq<Key>, a: Row, b: Row) {
    forall n | 0 <= n < |order| && Tie(order, n, a, b) :: order[n](a) <= order[n](b)
  }

  /** The rows agree on the first n terms. */
  ghost predicate Tie(order: seq<Key>, n: nat, a: Row, b: Row)
    requires n <= |order|
  {
    forall m | 0 <= m < n :: order[m](a) == order[m](b)
  }

  lemma {:induction false} PrecedesExact(order: seq<Key>, a: Row, b: Row)
    ensures Precedes(order, a, b) <==> Lexicographic(order, a, b)
  {
    if order != [] {
      var rest := order[1..];
      PrecedesExact(rest, a, b);
      assert Tie(order, 0, a, b);
      if order[0](a) == order[0](b) {
        forall n | 0 <= n < |rest| ensures Tie(rest, n, a, b) <==> Tie(order, n + 1, a, b) {
          TieRest(order, n, a, b);
        }
        LexicographicRest(order, a, b);
      } else {
        assert forall n | 0 < n <= |order| :: !Tie(order, n, a, b);
      }
    }
  }

  lemma TieRest(order: seq<Key>, n: nat, a: Row, b: Row)
    requires n < |order| && order[0](a) == order[0](b)
    ensures Tie(order[1..], n, a, b) <==> Tie(order, n + 1, a, b)
  {
    if Tie(order[1..], n, a, b) {
      forall m | 0 <= m < n + 1 ensures order[m](a) == order[m](b) {
        if m > 0 { assert order[1..][m - 1] == order[m]; }
      }
    }
    if Tie(order, n + 1, a, b) {
      forall m | 0 <= m < n ensures order[1..][m](a) == order[1..][m](b) {
        assert order[1..][m] == order[m + 1];
      }
    }
  }

  lemma LexicographicRest(order: seq<Key>, a: Row, b: Row)
    requires order != [] && order[0](a) == order[0](b)
    requires forall n | 0 <= n < |order| - 1 :: Tie(order[1..], n, a, b) <==> Tie(order, n + 1, a, b)
    ensures Lexicographic(order[1..], a, b) <==> Lexicographic(order, a, b)
  {
    var rest := order[1..];
    if Lexicographic(rest, a, b) {
      forall n | 0 <= n < |order| && Tie(order, n, a, b) ensures order[n](a) <= order[n](b) {
        if n > 0 { assert Tie(rest, n - 1, a, b) && rest[n - 1] == order[n]; }
      }
    }
    if Lexicographic(order, a, b) {
      forall n | 0 <= n < |rest| && Tie(rest, n, a, b) ensures rest[n](a) <= rest[n](b) {
        assert Tie(order, n + 1, a, b) && rest[n] == order[n + 1];
      }
    }
  }

  /** A row comes before another only if it has the smaller key in the first term that tells them apart. */
  lemma OrderTerms(db: Database, p: Plan, i: nat, j: nat)
    requires i < j < |NodeRows(db, RequestOf(Prepared(p)))| && p.joins == []
    ensures var rows := NodeRows(db, RequestOf(Prepared(p)));
              Lexicographic(p.order, rows[i], rows[j])
  {
    var q := RequestOf(Prepared(p));
    HitsSorted(db, q);
    PrecedesExact(q.order, Hits(db, q)[i].row, Hits(db, q)[j].row);
  }

  // ---------------------------------------------------------------- page

  /** The unpaged query. */
  function Whole(p: Plan): Plan {
    p.(limit := None, offset := None)
  }

  /** A page skips as many rows of the unpaged query as the offset says, and then returns the following ones, at most as
      many as the limit if it is not 0. */
  lemma PageRows(db: Database, p: Plan, i: nat)
    requires p.joins == []
    ensures var whole, page := NodeRows(db, RequestOf(Whole(p))), NodeRows(db, RequestOf(p));
            var offset, limit := p.offset.GetOr(0), p.limit.GetOr(0);
              i < |page| <==> offset + i < |whole| && (limit == 0 || i < limit)
    ensures var whole, page := NodeRows(db, RequestOf(Whole(p))), NodeRows(db, RequestOf(p));
              i < |page| ==> p.offset.GetOr(0) + i < |whole| && page[i] == whole[p.offset.GetOr(0) + i]
  {
    assert Hits(db, RequestOf(Whole(p))) == Unlimited(db, RequestOf(p));
  }

  // ---------------------------------------------------------------- the columns that are read

  /** The account columns, for a statement that selects none. */
  ghost predicate Fetched(p: Plan, columns: seq<Column>)
    requires WellTyped(p)
  {
    match FetchedColumns(p.table, p.fields, LoadedFlags(p))
    case Some(cs) => columns == cs
    case None => RowCodec.Known(columns) && forall c | RowCodec.ScanKind(c) != RowCodec.UnknownType :: c in columns
  }

  /** What assignValues reads from a row of accounts, over the columns the statement fetches, is what the node shows:
      the same id, and the same cells once they are encoded. */
  lemma DecodersAgree(codec: RowCodec.Codec, db: Database, p: Plan, i: nat, columns: seq<Column>,
                      a: AccountFields.Account)
    requires WellTyped(p) && p.table == Accounts && i < |Entities(db, p)| && Fetched(p, columns)
    requires forall c | c in p.fields :: ValidColumn(Accounts, c)
    requires RowCodec.Invertible(codec) && i < |NodeRows(db, RequestOf(p))|
    requires RowCodec.RowShows(codec, NodeRows(db, RequestOf(p))[i], a)
    ensures var r, e := NodeRows(db, RequestOf(p))[i], Entities(db, p)[i];
            var read := RowCodec.Assigned(codec, RowCodec.Blank(), columns, RowCodec.ScanRow(r, columns));
              && read.Ok? && read.value.selected == map[] && read.value.account.id == e.id
              && RowCodec.RowShows(codec, Row(e.id, e.cells), read.value.account)
  {
    var r, e := NodeRows(db, RequestOf(p))[i], Entities(db, p)[i];
    FetchedKnown(p, columns);
    RowCodec.ReadAll(codec, r, a, columns, RowCodec.ScanRow(r, columns), |columns|);
    assert columns[..|columns|] == columns;
    KeysFetched(p.table, p.fields, LoadedFlags(p));
    var read := RowCodec.ReadSoFar(a, r.id, columns, |columns|);
    CellsAgree(codec, p, columns, r, a, e);
  }

  /** The columns a query may select are those that assignValues knows. */
  lemma ColumnsKnown(c: Column)
    ensures ValidColumn(Accounts, c) <==> RowCodec.AssertedKind(c).Some?
  {
  }

  /** A table has the foreign keys that some edge follows from it, or to it from the other side; it can be selected by
      its id if it has one; and of the fields of accounts the link table has its own two. */
  lemma KeyColumns(t: Table, fk: ForeignKey, f: Field)
    ensures ValidColumn(t, Ref(fk)) <==>
            || (exists k | 0 <= k < |Edges(t)| :: Edges(t)[k].shape == M2O(fk))
            || (exists k | 0 <= k < |Edges(Accounts)| :: Edges(Accounts)[k] == EdgeDesc(t, O2M(fk)))
    ensures ValidColumn(t, ID) <==> HasID(t)
    ensures ValidColumn(AccountGroups, Plain(f)) <==> f in {Priority, CreatedAt}
  {
    OwnKey(t, fk);
    TheirKey(t, fk);
  }

  lemma OwnKey(t: Table, fk: ForeignKey)
    ensures (exists k | 0 <= k < |Edges(t)| :: Edges(t)[k].shape == M2O(fk)) <==>
            (t == Accounts && (fk == ProxyID || fk == ParentAccountID))
            || (t == AccountGroups && (fk == AccountID || fk == GroupID))
  {
    if t == Accounts && fk == ProxyID { assert Edges(t)[1].shape == M2O(fk); }
    if t == Accounts && fk == ParentAccountID { assert Edges(t)[2].shape == M2O(fk); }
    if t == AccountGroups && fk == AccountID { assert Edges(t)[0].shape == M2O(fk); }
    if t == AccountGroups && fk == GroupID { assert Edges(t)[1].shape == M2O(fk); }
  }

  lemma TheirKey(t: Table, fk: ForeignKey)
    ensures (exists k | 0 <= k < |Edges(Accounts)| :: Edges(Accounts)[k] == EdgeDesc(t, O2M(fk))) <==>
            (t == Accounts && fk == ParentAccountID) || (t == UsageLogs && fk == AccountID)
            || (t == AccountGroups && fk == AccountID)
  {
    if t == Accounts && fk == ParentAccountID { assert Edges(Accounts)[3] == EdgeDesc(t, O2M(fk)); }
    if t == UsageLogs && fk == AccountID { assert Edges(Accounts)[4] == EdgeDesc(t, O2M(fk)); }
    if t == AccountGroups && fk == AccountID { assert Edges(Accounts)[5] == EdgeDesc(t, O2M(fk)); }
  }

  lemma FetchedKnown(p: Plan, columns: seq<Column>)
    requires WellTyped(p) && p.table == Accounts && Fetched(p, columns)
    requires forall c | c in p.fields :: ValidColumn(Accounts, c)
    ensures RowCodec.Known(columns) && ID in columns
  {
    KeysFetched(p.table, p.fields, LoadedFlags(p));
    if p.fields != [] {
      forall c | c in columns ensures RowCodec.ScanKind(c) != RowCodec.UnknownType {
        Reruns.FetchedExactly(p.table, p.fields, LoadedFlags(p), c);
        NeededExact(p, c);
      }
    }
  }

  lemma CellsAgree(codec: RowCodec.Codec, p: Plan, columns: seq<Column>, r: Row, a: AccountFields.Account, e: Entity)
    requires WellTyped(p) && p.table == Accounts && Fetched(p, columns) && RowCodec.RowShows(codec, r, a)
    requires e == Decode(p.table, FetchedColumns(p.table, p.fields, LoadedFlags(p)), r)
    ensures RowCodec.RowShows(codec, Row(e.id, e.cells), RowCodec.ReadSoFar(a, r.id, columns, |columns|).account)
  {
    var read := RowCodec.ReadSoFar(a, r.id, columns, |columns|).account;
    assert columns[..|columns|] == columns;
    forall c ensures c in e.cells <==> c in read.cells {
      if c in r.cells && p.fields == [] {
        assert RowCodec.DatumKind(a.cells[c]) == RowCodec.ScanKind(c);
      }
    }
  }
}
