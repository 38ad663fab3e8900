/**
 How the gate's verdict depends on order: not at all on that of the exceptions, and on that of the report only where
 entries about the same package and advisory disagree on severity (tools/check_pnpm_audit_exceptions.py:163-226).
 */
module AuditOrder {
  import opened Wrappers
  import opened AuditReport
  import opened AuditGate
  import opened Strings
  import opened ExceptionFile

  ghost predicate Permutation<T>(a: seq<T>, b: seq<T>) {
    multiset(a) == multiset(b)
  }

  lemma SameMembers<T>(a: seq<T>, b: seq<T>, x: T)
    requires Permutation(a, b)
    ensures x in a <==> x in b
  {
    assert x in a <==> x in multiset(a);
    assert x in b <==> x in multiset(b);
  }

  /** An element that occurs twice occurs at two places. */
  lemma {:induction false} TwoPlaces<T>(s: seq<T>, x: T) returns (i: nat, j: nat)
    requires multiset(s)[x] >= 2
    ensures i < j < |s| && s[i] == x && s[j] == x
  {
    var front, last := s[..|s| - 1], s[|s| - 1];
    assert s == front + [last];
    if last == x {
      j := |s| - 1;
      assert x in multiset(front);
      i :| 0 <= i < |front| && front[i] == x;
    } else {
      i, j := TwoPlaces(front, x);
    }
  }

  // ---------------------------------------------------------------- the order of the exceptions

  lemma OtherOrder(t: Text, a: seq<Exception>, b: seq<Exception>)
    requires Permutation(a, b) && Unambiguous(t, a)
    ensures Unambiguous(t, b)
  {
    forall i | 0 <= i < |b| ensures WellFormed(t, b[i]) {
      SameMembers(a, b, b[i]);
      var k :| 0 <= k < |a| && a[k] == b[i];
    }
    forall i, j | 0 <= i < j < |b| ensures ExceptionKey(t, b[i]) != ExceptionKey(t, b[j]) {
      KeysApart(t, a, b, i, j);
    }
  }

  lemma RepeatedKey(t: Text, a: seq<Exception>, exc: Exception)
    requires multiset(a)[exc] >= 2
    ensures !DistinctKeys(t, a)
  {
    var k, l := TwoPlaces(a, exc);
    assert ExceptionKey(t, a[k]) == ExceptionKey(t, a[l]);
  }

  lemma KeysApart(t: Text, a: seq<Exception>, b: seq<Exception>, i: nat, j: nat)
    requires Permutation(a, b) && Unambiguous(t, a) && i < j < |b|
    ensures ExceptionKey(t, b[i]) != ExceptionKey(t, b[j])
  {
    if b[i] == b[j] {
      assert b == b[..j] + [b[j]] + b[j + 1..];
      assert b[i] == b[..j][i];
      assert multiset(b)[b[i]] >= 2;
      RepeatedKey(t, a, b[i]);
    } else {
      SameMembers(a, b, b[i]);
      SameMembers(a, b, b[j]);
      var k :| 0 <= k < |a| && a[k] == b[i];
      var l :| 0 <= l < |a| && a[l] == b[j];
      assert if k < l then ExceptionKey(t, a[k]) != ExceptionKey(t, a[l])
             else ExceptionKey(t, a[l]) != ExceptionKey(t, a[k]);
    }
  }

  lemma SamePermits(t: Text, a: seq<Exception>, b: seq<Exception>, p: Permit)
    requires Permutation(a, b) && Permits(t, a, p)
    ensures Permits(t, b, p)
  {
    var i :| 0 <= i < |a| && WellFormed(t, a[i]) && PermitOf(t, a[i]) == p;
    SameMembers(a, b, a[i]);
    var j :| 0 <= j < |b| && b[j] == a[i];
  }

  /** The verdict on a list of exceptions and the entries of a report. */
  ghost predicate Verdict(t: Text, entries: seq<Entry>, excs: seq<Exception>, today: int) {
    Unambiguous(t, excs) && SeveritiesRead(entries) && Covered(t, entries, excs, today)
  }

  /** The order of the exceptions does not matter. */
  lemma ExceptionOrder(t: Text, entries: seq<Entry>, a: seq<Exception>, b: seq<Exception>, today: int)
    requires Permutation(a, b)
    ensures Verdict(t, entries, a, today) <==> Verdict(t, entries, b, today)
  {
    if Unambiguous(t, a) { OtherOrder(t, a, b); }
    if Unambiguous(t, b) { OtherOrder(t, b, a); }
    forall p: Permit ensures Permits(t, a, p) <==> Permits(t, b, p) {
      if Permits(t, a, p) { SamePermits(t, a, b, p); }
      if Permits(t, b, p) { SamePermits(t, b, a, p); }
    }
    forall e: Entry ensures Excused(t, e, a, today) <==> Excused(t, e, b, today) { }
    assert forall i | 0 <= i < |entries| :: Settled(t, entries, a, today, i) <==> Settled(t, entries, b, today, i);
  }

  // ---------------------------------------------------------------- the order of the report

  /** Every relevant entry is excused, not only the first of its key. */
  ghost predicate Strict(t: Text, entries: seq<Entry>, excs: seq<Exception>, today: int) {
    forall i | 0 <= i < |entries| :: StrictAt(t, entries[i], excs, today)
  }

  ghost predicate StrictAt(t: Text, e: Entry, excs: seq<Exception>, today: int) {
    Relevant(t, e) ==> EntryKey(t, e).1 != "" && Excused(t, e, excs, today)
  }

  lemma StrictOrder(t: Text, a: seq<Entry>, b: seq<Entry>, excs: seq<Exception>, today: int)
    requires Permutation(a, b) && Strict(t, a, excs, today)
    ensures Strict(t, b, excs, today)
  {
    forall i | 0 <= i < |b| ensures StrictAt(t, b[i], excs, today) {
      SameMembers(a, b, b[i]);
      var j :| 0 <= j < |a| && a[j] == b[i];
    }
  }

  lemma StrictCovers(t: Text, entries: seq<Entry>, excs: seq<Exception>, today: int)
    requires Strict(t, entries, excs, today)
    ensures Covered(t, entries, excs, today)
  {
    forall i | 0 <= i < |entries| ensures Settled(t, entries, excs, today, i) {
      assert StrictAt(t, entries[i], excs, today);
    }
  }

  lemma AtFront(entries: seq<Entry>, i: nat) returns (p: seq<Entry>)
    requires i < |entries|
    ensures Permutation(p, entries) && p != [] && p[0] == entries[i]
  {
    p := [entries[i]] + (entries[..i] + entries[i + 1..]);
    assert entries == entries[..i] + [entries[i]] + entries[i + 1..];
  }

  lemma FrontSettled(t: Text, p: seq<Entry>, excs: seq<Exception>, today: int)
    requires p != [] && Covered(t, p, excs, today)
    ensures StrictAt(t, p[0], excs, today)
  {
    assert First(t, p, 0) && Settled(t, p, excs, today, 0);
  }

  /** The gate passes the entries in every order exactly if every one of them is excused on its own. */
  lemma EveryOrder(t: Text, entries: seq<Entry>, excs: seq<Exception>, today: int)
    ensures (forall p | Permutation(p, entries) :: Covered(t, p, excs, today)) <==> Strict(t, entries, excs, today)
  {
    if Strict(t, entries, excs, today) {
      forall p | Permutation(p, entries) ensures Covered(t, p, excs, today) {
        StrictOrder(t, entries, p, excs, today);
        StrictCovers(t, p, excs, today);
      }
    }
    if forall p | Permutation(p, entries) :: Covered(t, p, excs, today) {
      forall i | 0 <= i < |entries| ensures StrictAt(t, entries[i], excs, today) {
        var p := AtFront(entries, i);
        FrontSettled(t, p, excs, today);
      }
    }
  }

  /** Every relevant entry has an advisory, and some relevant entry about the same thing is excused. */
  ghost predicate AllServed(t: Text, entries: seq<Entry>, excs: seq<Exception>, today: int) {
    forall e | e in entries && Relevant(t, e) :: EntryKey(t, e).1 != "" && Served(t, entries, e, excs, today)
  }

  ghost predicate Served(t: Text, entries: seq<Entry>, e: Entry, excs: seq<Exception>, today: int) {
    exists d | d in entries :: Serves(t, d, e, excs, today)
  }

  ghost predicate Serves(t: Text, d: Entry, e: Entry, excs: seq<Exception>, today: int) {
    Relevant(t, d) && EntryKey(t, d) == EntryKey(t, e) && Excused(t, d, excs, today)
  }

  lemma ServedOrder(t: Text, a: seq<Entry>, b: seq<Entry>, excs: seq<Exception>, today: int)
    requires Permutation(a, b) && AllServed(t, a, excs, today)
    ensures AllServed(t, b, excs, today)
  {
    forall e | e in b && Relevant(t, e) ensures EntryKey(t, e).1 != "" && Served(t, b, e, excs, today) {
      SameMembers(a, b, e);
      var d :| d in a && Serves(t, d, e, excs, today);
      SameMembers(a, b, d);
    }
  }

  /** The first of each key is excused, so every key has an excused entry. */
  lemma CoveredServes(t: Text, entries: seq<Entry>, excs: seq<Exception>, today: int)
    requires Covered(t, entries, excs, today)
    ensures AllServed(t, entries, excs, today)
  {
    forall e | e in entries && Relevant(t, e) ensures EntryKey(t, e).1 != "" && Served(t, entries, e, excs, today) {
      var i :| 0 <= i < |entries| && entries[i] == e;
      var j := FirstOf(t, entries, i);
      assert Settled(t, entries, excs, today, i) && Settled(t, entries, excs, today, j);
      assert Serves(t, entries[j], e, excs, today);
    }
  }

  /** The entries whose being excused is `excused`, in order. */
  ghost function Pick(t: Text, entries: seq<Entry>, excs: seq<Exception>, today: int, excused: bool): seq<Entry> {
    if entries == [] then []
    else
      Pick(t, entries[..|entries| - 1], excs, today, excused) +
      (if Excused(t, entries[|entries| - 1], excs, today) == excused then [entries[|entries| - 1]] else [])
  }

  lemma {:induction false} PickMembers(t: Text, entries: seq<Entry>, excs: seq<Exception>, today: int, excused: bool)
    ensures forall e | e in Pick(t, entries, excs, today, excused) :: Excused(t, e, excs, today) == excused
  {
    if entries != [] { PickMembers(t, entries[..|entries| - 1], excs, today, excused); }
  }

  lemma {:induction false} PicksAll(t: Text, entries: seq<Entry>, excs: seq<Exception>, today: int)
    ensures Permutation(Pick(t, entries, excs, today, true) + Pick(t, entries, excs, today, false), entries)
  {
    if entries != [] {
      PicksAll(t, entries[..|entries| - 1], excs, today);
      assert entries == entries[..|entries| - 1] + [entries[|entries| - 1]];
    }
  }

  /** With the excused entries first the gate passes, if every key has one. */
  lemma ExcusedFirst(t: Text, entries: seq<Entry>, excs: seq<Exception>, today: int)
    requires AllServed(t, entries, excs, today)
    ensures Permutation(Pick(t, entries, excs, today, true) + Pick(t, entries, excs, today, false), entries)
    ensures Covered(t, Pick(t, entries, excs, today, true) + Pick(t, entries, excs, today, false), excs, today)
  {
    var yes, no := Pick(t, entries, excs, today, true), Pick(t, entries, excs, today, false);
    PicksAll(t, entries, excs, today);
    PickMembers(t, entries, excs, today, true);
    PickMembers(t, entries, excs, today, false);
    ServedOrder(t, entries, yes + no, excs, today);
    ServedFirst(t, yes, no, excs, today);
  }

  lemma ServedFirst(t: Text, yes: seq<Entry>, no: seq<Entry>, excs: seq<Exception>, today: int)
    requires AllServed(t, yes + no, excs, today)
    requires forall e | e in yes :: Excused(t, e, excs, today)
    requires forall e | e in no :: !Excused(t, e, excs, today)
    ensures Covered(t, yes + no, excs, today)
  {
    forall i | 0 <= i < |yes + no| ensures Settled(t, yes + no, excs, today, i) {
      if Relevant(t, (yes + no)[i]) {
        assert (yes + no)[i] in yes + no;
        if First(t, yes + no, i) { FirstServed(t, yes, no, excs, today, i); }
      }
    }
  }

  lemma FirstServed(t: Text, yes: seq<Entry>, no: seq<Entry>, excs: seq<Exception>, today: int, i: nat)
    requires i < |yes + no| && First(t, yes + no, i) && Served(t, yes + no, (yes + no)[i], excs, today)
    requires forall e | e in no :: !Excused(t, e, excs, today)
    ensures (yes + no)[i] in yes
  {
    var d :| d in yes + no && Serves(t, d, (yes + no)[i], excs, today);
    assert d in yes;
    NotBehind(t, yes, no, i, d);
  }

  lemma NotBehind(t: Text, yes: seq<Entry>, no: seq<Entry>, i: nat, d: Entry)
    requires i < |yes + no| && First(t, yes + no, i)
    requires d in yes && Relevant(t, d) && EntryKey(t, d) == EntryKey(t, (yes + no)[i])
    ensures (yes + no)[i] in yes
  {
    var j :| 0 <= j < |yes| && yes[j] == d;
    assert (yes + no)[j] == d;
    assert i <= j;
    assert (yes + no)[i] == yes[i];
  }

  /** The order of the entries decides, exactly if every relevant entry has an advisory and some relevant entry about
      the same thing is excused, but not every one of them is. */
  lemma OrderDecides(t: Text, entries: seq<Entry>, excs: seq<Exception>, today: int)
    ensures (exists p, q | Permutation(p, entries) && Permutation(q, entries) ::
               Covered(t, p, excs, today) && !Covered(t, q, excs, today)) <==>
            AllServed(t, entries, excs, today) && !Strict(t, entries, excs, today)
  {
    EveryOrder(t, entries, excs, today);
    SomeOrder(t, entries, excs, today);
  }

  /** Some order passes exactly if every key has an excused entry. */
  lemma SomeOrder(t: Text, entries: seq<Entry>, excs: seq<Exception>, today: int)
    ensures (exists p | Permutation(p, entries) :: Covered(t, p, excs, today)) <==> AllServed(t, entries, excs, today)
  {
    if AllServed(t, entries, excs, today) { ExcusedFirst(t, entries, excs, today); }
    if p :| Permutation(p, entries) && Covered(t, p, excs, today) {
      CoveredServes(t, p, excs, today);
      ServedOrder(t, p, entries, excs, today);
    }
  }

  /** Relevant entries about the same package and advisory name the same severity. */
  ghost predicate Agree(t: Text, entries: seq<Entry>) {
    forall i, j | 0 <= i < |entries| && 0 <= j < |entries| ::
      Relevant(t, entries[i]) && Relevant(t, entries[j]) && EntryKey(t, entries[i]) == EntryKey(t, entries[j]) ==>
        Severity(t, entries[i]) == Severity(t, entries[j])
  }

  lemma {:induction false} FirstOf(t: Text, entries: seq<Entry>, i: nat) returns (j: nat)
    requires i < |entries| && Relevant(t, entries[i])
    ensures j <= i && Relevant(t, entries[j]) && EntryKey(t, entries[j]) == EntryKey(t, entries[i])
            && First(t, entries, j)
    decreases i
  {
    if First(t, entries, i) {
      j := i;
    } else {
      var k :| 0 <= k < i && Relevant(t, entries[k]) && EntryKey(t, entries[k]) == EntryKey(t, entries[i]);
      j := FirstOf(t, entries, k);
    }
  }

  /** Where severities agree, looking only at the first entry of each key is as good as looking at all. */
  lemma SeenSetExact(t: Text, entries: seq<Entry>, excs: seq<Exception>, today: int)
    requires Agree(t, entries)
    ensures Covered(t, entries, excs, today) <==> Strict(t, entries, excs, today)
  {
    if Covered(t, entries, excs, today) {
      forall i | 0 <= i < |entries| && Relevant(t, entries[i]) ensures StrictAt(t, entries[i], excs, today) {
        var j := FirstOf(t, entries, i);
        assert Settled(t, entries, excs, today, i) && Settled(t, entries, excs, today, j);
        assert Severity(t, entries[i]) == Severity(t, entries[j]);
      }
      assert forall i | 0 <= i < |entries| :: StrictAt(t, entries[i], excs, today);
    }
    if Strict(t, entries, excs, today) { StrictCovers(t, entries, excs, today); }
  }

  lemma AgreeOrder(t: Text, a: seq<Entry>, b: seq<Entry>)
    requires Permutation(a, b) && Agree(t, a)
    ensures Agree(t, b)
  {
    forall i, j | 0 <= i < |b| && 0 <= j < |b| && Relevant(t, b[i]) && Relevant(t, b[j])
        && EntryKey(t, b[i]) == EntryKey(t, b[j])
      ensures Severity(t, b[i]) == Severity(t, b[j])
    {
      SameMembers(a, b, b[i]);
      SameMembers(a, b, b[j]);
      var k :| 0 <= k < |a| && a[k] == b[i];
      var l :| 0 <= l < |a| && a[l] == b[j];
    }
  }

  /** Then the order of the report does not matter either. */
  lemma ReportOrder(t: Text, a: seq<Entry>, b: seq<Entry>, excs: seq<Exception>, today: int)
    requires Permutation(a, b) && Agree(t, a)
    ensures Verdict(t, a, excs, today) <==> Verdict(t, b, excs, today)
  {
    AgreeOrder(t, a, b);
    SeenSetExact(t, a, excs, today);
    SeenSetExact(t, b, excs, today);
    if Strict(t, a, excs, today) { StrictOrder(t, a, b, excs, today); }
    if Strict(t, b, excs, today) { StrictOrder(t, b, a, excs, today); }
    if SeveritiesRead(a) { SeveritiesOrder(a, b); }
    if SeveritiesRead(b) { SeveritiesOrder(b, a); }
  }

  lemma SeveritiesOrder(a: seq<Entry>, b: seq<Entry>)
    requires Permutation(a, b) && SeveritiesRead(a)
    ensures SeveritiesRead(b)
  {
    forall i | 0 <= i < |b| ensures SeverityReads(b[i]) {
      SameMembers(a, b, b[i]);
      var j :| 0 <= j < |a| && a[j] == b[i];
    }
  }

  /** Where they disagree it can: two entries about one package and advisory, of which the exception fits one, pass with
      that one first and fail with the other first. */
  lemma OrderMatters(t: Text, d: Entry, e: Entry, excs: seq<Exception>, today: int)
    requires Relevant(t, d) && Relevant(t, e) && EntryKey(t, d) == EntryKey(t, e) && EntryKey(t, d).1 != ""
    requires Excused(t, d, excs, today) && !Excused(t, e, excs, today)
    ensures Covered(t, [d, e], excs, today) && !Covered(t, [e, d], excs, today)
  {
    var a, b := [d, e], [e, d];
    assert First(t, b, 0) && !Settled(t, b, excs, today, 0);
    assert !First(t, a, 1) by { assert Relevant(t, a[0]); }
    assert Settled(t, a, excs, today, 0) && Settled(t, a, excs, today, 1);
  }

  // ---------------------------------------------------------------- the exit code

  /** Two files with the same exceptions in different orders. */
  lemma FileOrder(t: Text, audit: JVal, a: seq<string>, b: seq<string>, today: int)
    requires ParseLines(a).Ok? && ParseLines(b).Ok? && Permutation(ParseLines(a).value, ParseLines(b).value)
    ensures Accepts(t, audit, a, today) <==> Accepts(t, audit, b, today)
  {
    FailsExactly(Reader([], None), a);
    FailsExactly(Reader([], None), b);
    if Supported(audit) { ExceptionOrder(t, Yielded(Str(t), audit), Records(a), Records(b), today); }
  }

  /** b without an element that is the last of a; what is left of each are the same elements. */
  lemma TakeLast<T>(a: seq<T>, b: seq<T>) returns (before: seq<T>, after: seq<T>)
    requires a != [] && Permutation(a, b)
    ensures b == before + [a[|a| - 1]] + after && Permutation(a[..|a| - 1], before + after)
  {
    var front, last := a[..|a| - 1], a[|a| - 1];
    assert a == front + [last];
    SameMembers(a, b, last);
    var k :| 0 <= k < |b| && b[k] == last;
    before, after := b[..k], b[k + 1..];
    assert b == before + [last] + after;
    WithOut(before, last, after);
    WithOut(front, last, []);
    assert front + [last] + [] == a && front + [] == front;
    assert multiset(front) == multiset(front) + multiset{last} - multiset{last};
    assert multiset(before + after) == multiset(before + after) + multiset{last} - multiset{last};
  }

  lemma WithOut<T>(before: seq<T>, x: T, after: seq<T>)
    ensures multiset(before + [x] + after) == multiset(before + after) + multiset{x}
  {
    assert multiset(before + [x] + after) == multiset(before) + multiset([x]) + multiset(after);
  }

  lemma RecordsConcat(a: seq<seq<Pair>>, b: seq<seq<Pair>>)
    ensures RecordsOf(a + b) == RecordsOf(a) + RecordsOf(b)
  {
  }

  lemma {:induction false} RecordsPermuted(rs: seq<seq<Pair>>, qs: seq<seq<Pair>>)
    requires Permutation(rs, qs)
    ensures Permutation(RecordsOf(rs), RecordsOf(qs))
  {
    assert |multiset(rs)| == |rs| && |multiset(qs)| == |qs|;
    if rs != [] {
      var front, last := rs[..|rs| - 1], rs[|rs| - 1];
      var before, after := TakeLast(rs, qs);
      RecordsPermuted(front, before + after);
      assert rs == front + [last];
      RecordsConcat(front, [last]);
      RecordsConcat(before, after);
      RecordsConcat(before, [last]);
      RecordsConcat(before + [last], after);
    }
  }

  /** The order in which the exceptions are written to the file does not change the exit code. */
  lemma WrittenOrder(t: Text, audit: JVal, rs: seq<seq<Pair>>, qs: seq<seq<Pair>>, today: int)
    requires Permutation(rs, qs) && forall i | 0 <= i < |rs| :: Renderable(rs[i])
    ensures Accepts(t, audit, RenderAll(rs), today) <==> Accepts(t, audit, RenderAll(qs), today)
  {
    forall i | 0 <= i < |qs| ensures Renderable(qs[i]) {
      SameMembers(rs, qs, qs[i]);
      var j :| 0 <= j < |rs| && rs[j] == qs[i];
    }
    RendersBack(rs);
    RendersBack(qs);
    RecordsPermuted(rs, qs);
    FileOrder(t, audit, RenderAll(rs), RenderAll(qs), today);
  }

  lemma AppendAssociates(a: Result<seq<Entry>, Crash>, b: Result<seq<Entry>, Crash>, c: Result<seq<Entry>, Crash>)
    ensures Append(Append(a, b), c) == Append(a, Append(b, c))
  {
    if a.Ok? && b.Ok? && c.Ok? { assert a.value + b.value + c.value == a.value + (b.value + c.value); }
  }

  lemma {:induction false} GatherConcat(gives: Named -> Result<seq<Entry>, Crash>, a: seq<Named>, b: seq<Named>)
    ensures Gather(gives, a + b) == Append(Gather(gives, a), Gather(gives, b))
  {
    if b == [] {
      assert a + b == a;
      assert Gather(gives, a).Ok? ==> Gather(gives, a).value + [] == Gather(gives, a).value;
    } else {
      GatherConcat(gives, a, b[..|b| - 1]);
      assert (a + b)[..|a + b| - 1] == a + b[..|b| - 1];
      AppendAssociates(Gather(gives, a), Gather(gives, b[..|b| - 1]), gives(b[|b| - 1]));
    }
  }

  /** Taking one entry out takes what it gives out, wherever it stands. */
  lemma GatherOut(gives: Named -> Result<seq<Entry>, Crash>, before: seq<Named>, x: Named, after: seq<Named>)
    requires Gather(gives, before + [x] + after).Ok?
    ensures Gather(gives, before + after).Ok? && gives(x).Ok?
    ensures multiset(Gather(gives, before + [x] + after).value) == multiset(Gather(gives, before + after).value) +
            multiset(gives(x).value)
  {
    GatherConcat(gives, before, after);
    GatherConcat(gives, before, [x]);
    GatherConcat(gives, before + [x], after);
    assert [x][..0] == [];
    assert Gather(gives, [x]) == Append(Ok([]), gives(x));
  }

  lemma {:induction false} GatherPermuted(gives: Named -> Result<seq<Entry>, Crash>, a: seq<Named>, b: seq<Named>)
    requires Permutation(a, b) && Gather(gives, a).Ok? && Gather(gives, b).Ok?
    ensures Permutation(Gather(gives, a).value, Gather(gives, b).value)
  {
    assert |multiset(a)| == |a| && |multiset(b)| == |b|;
    if a != [] {
      var front, last := a[..|a| - 1], a[|a| - 1];
      var before, after := TakeLast(a, b);
      GatherOut(gives, before, last, after);
      GatherPermuted(gives, front, before + after);
    }
  }

  /** Reports that differ only in the order of the entries of their two sections. */
  ghost predicate SameReport(a: JVal, b: JVal) {
    && a.JObj? && b.JObj?
    && (Truthy(Get(a, "error")) <==> Truthy(Get(b, "error")))
    && (Truthy(Get(a, "errors")) <==> Truthy(Get(b, "errors")))
    && (Get(a, "advisories").JObj? <==> Get(b, "advisories").JObj?)
    && (Get(a, "vulnerabilities").JObj? <==> Get(b, "vulnerabilities").JObj?)
    && Permutation(Section(Get(a, "advisories")), Section(Get(b, "advisories")))
    && Permutation(Section(Get(a, "vulnerabilities")), Section(Get(b, "vulnerabilities")))
  }

  lemma ReadablePermuted(a: JVal, b: JVal)
    requires SameReport(a, b) && Readable(a)
    ensures Readable(b)
  {
    var c, d := Section(Get(a, "advisories")), Section(Get(b, "advisories"));
    forall i | 0 <= i < |d| ensures Identifiable(d[i].1) {
      SameMembers(c, d, d[i]);
      var j :| 0 <= j < |c| && c[j] == d[i];
    }
    var u, v := Section(Get(a, "vulnerabilities")), Section(Get(b, "vulnerabilities"));
    forall i | 0 <= i < |v| ensures Titled(v[i].1) {
      SameMembers(u, v, v[i]);
      var j :| 0 <= j < |u| && u[j] == v[i];
    }
  }

  lemma YieldedPermuted(show: JVal -> string, a: JVal, b: JVal)
    requires SameReport(a, b) && Readable(a)
    ensures Permutation(Yielded(show, a), Yielded(show, b))
  {
    ReadablePermuted(a, b);
    ReadsExactly(show, a);
    ReadsExactly(show, b);
    GatherPermuted(AdvisoryOf(show), Section(Get(a, "advisories")), Section(Get(b, "advisories")));
    GatherPermuted(VulnOf(), Section(Get(a, "vulnerabilities")), Section(Get(b, "vulnerabilities")));
  }

  /** The order of the entries in the sections of a report does not change the exit code, where entries about the same
      package and advisory agree on severity. */
  lemma SectionOrder(t: Text, a: JVal, b: JVal, lines: seq<string>, today: int)
    requires SameReport(a, b) && Agree(t, Yielded(Str(t), a))
    ensures Accepts(t, a, lines, today) <==> Accepts(t, b, lines, today)
  {
    assert SameReport(b, a);
    assert Supported(a) <==> Supported(b);
    if Readable(a) {
      ReadablePermuted(a, b);
      YieldedPermuted(Str(t), a, b);
      ReportOrder(t, Yielded(Str(t), a), Yielded(Str(t), b), Records(lines), today);
    } else if Readable(b) {
      ReadablePermuted(b, a);
    }
  }

  // ---------------------------------------------------------------- an example

  function Advisory(severity: string): JVal {
    JObj([("name", JStr("lib")), ("severity", JStr(severity)), ("url", JStr("GHSA-1"))])
  }

  function Report(first: string, second: string): JVal {
    JObj([("advisories", JObj([("1", Advisory(first)), ("2", Advisory(second))]))])
  }

  lemma GetSkips(k: string, v: JVal, rest: seq<Named>, key: string)
    ensures Get(JObj([(k, v)] + rest), key) == if k == key then v else Get(JObj(rest), key)
  {
    assert ([(k, v)] + rest)[1..] == rest;
  }

  lemma AdvisoryFields(severity: string, key: string)
    ensures Get(Advisory(severity), key) ==
            if key == "name" then JStr("lib") else if key == "severity" then JStr(severity)
                else if key == "url" then JStr("GHSA-1") else JNull
  {
    var c := [("url", JStr("GHSA-1"))];
    var b := [("severity", JStr(severity))] + c;
    GetSkips("name", JStr("lib"), b, key);
    GetSkips("severity", JStr(severity), c, key);
    assert c == [("url", JStr("GHSA-1"))] + [];
    GetSkips("url", JStr("GHSA-1"), [], key);
    assert Advisory(severity).entries == [("name", JStr("lib"))] + b;
  }

  lemma AdvisoryEntry(show: JVal -> string, severity: string)
    ensures EntryOfAdvisory(show, Advisory(severity)) == Ok(Entry(JStr("lib"), JStr(severity), JStr("GHSA-1")))
  {
    AdvisoryFields(severity, "github_advisory_id");
    AdvisoryFields(severity, "url");
    AdvisoryFields(severity, "module_name");
    AdvisoryFields(severity, "name");
    AdvisoryFields(severity, "severity");
    assert |"name"| == 4 && |"severity"| == 8 && |"url"| == 3 && |"github_advisory_id"| == 18 && |"module_name"| == 11;
  }

  lemma ReportFields(first: string, second: string, key: string)
    ensures Get(Report(first, second), key) ==
            if key == "advisories" then JObj([("1", Advisory(first)), ("2", Advisory(second))]) else JNull
  {
    var v := JObj([("1", Advisory(first)), ("2", Advisory(second))]);
    GetSkips("advisories", v, [], key);
    assert Report(first, second).entries == [("advisories", v)] + [];
  }

  lemma ReportYields(show: JVal -> string, first: string, second: string)
    ensures var r := Report(first, second);
              && Supported(r) && Readable(r)
              && Yielded(show, r) == [LibEntry(first), LibEntry(second)]
  {
    var r := Report(first, second);
    ReportFields(first, second, "error");
    ReportFields(first, second, "errors");
    ReportFields(first, second, "advisories");
    ReportFields(first, second, "vulnerabilities");
    assert |"error"| == 5 && |"errors"| == 6 && |"advisories"| == 10 && |"vulnerabilities"| == 15;
    AdvisoryEntry(show, first);
    AdvisoryEntry(show, second);
    var es := Section(Get(r, "advisories"));
    assert es[..1] == [("1", Advisory(first))] && es[..1][..0] == [];
    assert AdvisoryEntries(show, []) == Ok([]);
    assert AdvisoryEntries(show, es[..1]) == Append(Ok([]), Ok([Entry(JStr("lib"), JStr(first), JStr("GHSA-1"))]));
    ReadsExactly(show, r);
  }

  function Exempt(): seq<Pair> {
    [Pair("package", "lib", Bare), Pair("advisory", "GHSA-1", DoubleQuotes), Pair("severity", "high", Bare),
     Pair("mitigation", "none", SingleQuotes), Pair("expires_on", "2030-01-01", DoubleQuotes)]
  }

  predicate IsWord(k: string) {
    k != "" && forall i | 0 <= i < |k| :: 'a' <= k[i] <= 'z' || k[i] == '_'
  }

  lemma WordIsKey(k: string)
    requires IsWord(k) && |k| != 7 && |k| != 10
    ensures IsNextKey(k)
  {
    assert !IsSpace(k[0]) && !IsSpace(k[|k| - 1]);
    assert |"version"| == 7 && |"exceptions"| == 10;
  }

  lemma ExemptRenders()
    ensures Renderable(Exempt())
  {
    WordIsKey("advisory");
    WordIsKey("severity");
    LongKeys();
    assert IsKey("package") && CanBeBare("lib") && CanBeBare("high");
  }

  lemma LongKeys()
    ensures IsNextKey("mitigation") && IsNextKey("expires_on")
  {
    assert "mitigation"[0] == 'm' && "exceptions"[0] == 'e';
    assert "expires_on"[2] == 'p' && "exceptions"[2] == 'c';
  }

  lemma ExemptRecord()
    ensures RecordOf(Exempt()) ==
            map["package" := "lib", "advisory" := "GHSA-1", "severity" := "high", "mitigation" := "none",
                "expires_on" := "2030-01-01"]
  {
    var ps, r := Exempt()[1..], map["package" := "lib"];
    assert ps[..3] == ps[..4][..3] && ps[..2] == ps[..3][..2] && ps[..1] == ps[..2][..1]
        && ps[..0] == ps[..1][..0] == [];
    assert ps[..4] == ps;
    assert RecordWith(r, ps[..1]) == r["advisory" := "GHSA-1"];
    assert RecordWith(r, ps[..2]) == r["advisory" := "GHSA-1"]["severity" := "high"];
    assert RecordWith(r, ps[..3]) == r["advisory" := "GHSA-1"]["severity" := "high"]["mitigation" := "none"];
  }

  function Plainly(today: int): Text {
    Text(s => s, s => s, _ => "", _ => Some(today))
  }

  lemma ExemptPermits(today: int)
    ensures var t, p := Plainly(today), Permit(("lib", "GHSA-1"), "high", today);
              && Unambiguous(t, [RecordOf(Exempt())])
              && forall q: Permit :: Permits(t, [RecordOf(Exempt())], q) <==> q == p
  {
    var t, exc := Plainly(today), RecordOf(Exempt());
    ExemptRecord();
    assert WellFormed(t, exc);
    assert PermitOf(t, exc) == Permit(("lib", "GHSA-1"), "high", today);
    assert [exc][0] == exc;
  }

  function LibEntry(severity: string): Entry {
    Entry(JStr("lib"), JStr(severity), JStr("GHSA-1"))
  }

  lemma ExampleCovered(today: int)
    ensures var t, excs := Plainly(today), [RecordOf(Exempt())];
              && Covered(t, [LibEntry("high"), LibEntry("critical")], excs, today)
              && !Covered(t, [LibEntry("critical"), LibEntry("high")], excs, today)
  {
    var t, d, e := Plainly(today), LibEntry("high"), LibEntry("critical");
    ExemptPermits(today);
    var p := Permit(("lib", "GHSA-1"), "high", today);
    assert EntryKey(t, d) == EntryKey(t, e) == p.key;
    assert Severity(t, d) == "high" && Severity(t, e) == "critical" && |"high"| == 4 && |"critical"| == 8;
    assert Permits(t, [RecordOf(Exempt())], p);
    OrderMatters(t, d, e, [RecordOf(Exempt())], today);
  }

  lemma AcceptsHere(t: Text, audit: JVal, lines: seq<string>, today: int, entries: seq<Entry>, excs: seq<Exception>)
    requires Supported(audit) && Readable(audit) && Yielded(Str(t), audit) == entries && SeveritiesRead(entries)
    requires ParseLines(lines) == Ok(excs) && Unambiguous(t, excs)
    ensures Accepts(t, audit, lines, today) <==> Covered(t, entries, excs, today)
  {
    FailsExactly(Reader([], None), lines);
  }

  /** There is a file with just this exception. */
  lemma ExemptFile()
    ensures ParseLines(RenderAll([Exempt()])) == Ok([RecordOf(Exempt())])
  {
    ExemptRenders();
    RendersBack([Exempt()]);
    assert RecordsOf([Exempt()]) == [RecordOf(Exempt())];
  }

  lemma ExampleAccepts(today: int, lines: seq<string>, first: string, second: string)
    requires ParseLines(lines) == Ok([RecordOf(Exempt())])
    ensures Accepts(Plainly(today), Report(first, second), lines, today) <==>
            Covered(Plainly(today), [LibEntry(first), LibEntry(second)], [RecordOf(Exempt())], today)
  {
    ExemptPermits(today);
    ReportYields(Str(Plainly(today)), first, second);
    AcceptsHere(Plainly(today), Report(first, second), lines, today, [LibEntry(first), LibEntry(second)],
        [RecordOf(Exempt())]);
  }

  /** An audit report with a high and a critical advisory about the same thing, and any file that holds one exception,
      which says "high": the gate passes with the high one first, and fails with the critical one first. */
  lemma OrderMattersExample(today: int, lines: seq<string>)
    requires ParseLines(lines) == Ok([RecordOf(Exempt())])
    ensures Accepts(Plainly(today), Report("high", "critical"), lines, today)
    ensures !Accepts(Plainly(today), Report("critical", "high"), lines, today)
  {
    ExampleCovered(today);
    ExampleAccepts(today, lines, "high", "critical");
    ExampleAccepts(today, lines, "critical", "high");
  }
}
