/**
 The order of a whole report: its advisories come first, its packages after them, and the order inside each of the two
 sections is open (tools/check_pnpm_audit_exceptions.py:64-111, :198-226). Exactly when every order passes, when some
 order does, and hence when the order decides.
 */
module SectionOrders {
  import opened Wrappers
  import opened AuditReport
  import opened AuditGate
  import opened AuditOrder
  import opened ExceptionFile

  // ---------------------------------------------------------------- the two parts of what is yielded

  function OrNone(r: Result<seq<Entry>, Crash>): seq<Entry> {
    if r.Ok? then r.value else []
  }

  function AdvisorySection(a: JVal): seq<Named>
    requires a.JObj?
  {
    Section(Get(a, "advisories"))
  }

  function PackageSection(a: JVal): seq<Named>
    requires a.JObj?
  {
    Section(Get(a, "vulnerabilities"))
  }

  function AdvisoryPart(t: Text, section: seq<Named>): seq<Entry> {
    OrNone(AdvisoryEntries(Str(t), section))
  }

  function PackagePart(section: seq<Named>): seq<Entry> {
    OrNone(VulnEntries(section))
  }

  /** A relevant entry among ds is about the same package and advisory. */
  ghost predicate Taken(t: Text, ds: seq<Entry>, e: Entry) {
    exists d | d in ds :: Relevant(t, d) && EntryKey(t, d) == EntryKey(t, e)
  }

  ghost predicate SettledAfter(t: Text, ds: seq<Entry>, es: seq<Entry>, excs: seq<Exception>, today: int, i: nat)
    requires i < |es|
  {
    Relevant(t, es[i]) ==>
      EntryKey(t, es[i]).1 != "" && (First(t, es, i) && !Taken(t, ds, es[i]) ==> Excused(t, es[i], excs, today))
  }

  /** The entries es pass when they come after ds. */
  ghost predicate CoveredAfter(t: Text, ds: seq<Entry>, es: seq<Entry>, excs: seq<Exception>, today: int) {
    forall i | 0 <= i < |es| :: SettledAfter(t, ds, es, excs, today, i)
  }

  lemma FirstParts(t: Text, ds: seq<Entry>, es: seq<Entry>, i: nat)
    requires i < |es|
    ensures First(t, ds + es, |ds| + i) <==> First(t, es, i) && !Taken(t, ds, es[i])
  {
    var all := ds + es;
    assert all[|ds| + i] == es[i];
    if First(t, all, |ds| + i) {
      forall j | 0 <= j < i ensures Relevant(t, es[j]) ==> EntryKey(t, es[j]) != EntryKey(t, es[i]) {
        assert all[|ds| + j] == es[j];
      }
      forall d | d in ds ensures !(Relevant(t, d) && EntryKey(t, d) == EntryKey(t, es[i])) {
        var j :| 0 <= j < |ds| && ds[j] == d;
        assert all[j] == d;
      }
    }
    if First(t, es, i) && !Taken(t, ds, es[i]) {
      forall j | 0 <= j < |ds| + i ensures Relevant(t, all[j]) ==> EntryKey(t, all[j]) != EntryKey(t, all[|ds| + i]) {
        if j < |ds| { assert all[j] in ds; } else { assert all[j] == es[j - |ds|]; }
      }
    }
  }

  lemma FirstBefore(t: Text, ds: seq<Entry>, es: seq<Entry>, i: nat)
    requires i < |ds|
    ensures First(t, ds + es, i) <==> First(t, ds, i)
  {
    assert forall j | 0 <= j <= i :: (ds + es)[j] == ds[j];
  }

  lemma CoveredParts(t: Text, ds: seq<Entry>, es: seq<Entry>, excs: seq<Exception>, today: int)
    ensures Covered(t, ds + es, excs, today) <==> Covered(t, ds, excs, today) && CoveredAfter(t, ds, es, excs, today)
  {
    var all := ds + es;
    forall i | 0 <= i < |ds| ensures Settled(t, all, excs, today, i) <==> Settled(t, ds, excs, today, i) {
      FirstBefore(t, ds, es, i);
    }
    forall i | 0 <= i < |es|
      ensures Settled(t, all, excs, today, |ds| + i) <==> SettledAfter(t, ds, es, excs, today, i)
    {
      FirstParts(t, ds, es, i);
    }
    if Covered(t, ds, excs, today) && CoveredAfter(t, ds, es, excs, today) {
      forall i | 0 <= i < |all| ensures Settled(t, all, excs, today, i) {
        if i >= |ds| { assert SettledAfter(t, ds, es, excs, today, i - |ds|); }
      }
    }
    if Covered(t, all, excs, today) {
      forall i | 0 <= i < |es| ensures SettledAfter(t, ds, es, excs, today, i) {
        assert Settled(t, all, excs, today, |ds| + i);
      }
    }
  }

  /** Of the entries before, only their keys count. */
  lemma AfterPermuted(t: Text, ds: seq<Entry>, cs: seq<Entry>, es: seq<Entry>, excs: seq<Exception>, today: int)
    requires Permutation(ds, cs) && CoveredAfter(t, ds, es, excs, today)
    ensures CoveredAfter(t, cs, es, excs, today)
  {
    forall i | 0 <= i < |es| ensures SettledAfter(t, cs, es, excs, today, i) {
      assert SettledAfter(t, ds, es, excs, today, i);
      if Taken(t, ds, es[i]) { TakenPermuted(t, ds, cs, es[i]); }
    }
  }

  lemma TakenPermuted(t: Text, ds: seq<Entry>, cs: seq<Entry>, e: Entry)
    requires Permutation(ds, cs) && Taken(t, ds, e)
    ensures Taken(t, cs, e)
  {
    var d :| d in ds && Relevant(t, d) && EntryKey(t, d) == EntryKey(t, e);
    SameMembers(ds, cs, d);
  }

  // ---------------------------------------------------------------- what no order changes

  /** All conditions of the gate but the one that looks at the order. */
  ghost predicate Sound(t: Text, a: JVal, lines: seq<string>) {
    && Supported(a)
    && (forall i | 0 <= i < |lines| :: !Broken(lines[i])) && Unambiguous(t, Records(lines))
    && Readable(a) && SeveritiesRead(Yielded(Str(t), a))
  }

  lemma AcceptsParts(t: Text, a: JVal, lines: seq<string>, today: int)
    requires a.JObj?
    ensures Accepts(t, a, lines, today) <==>
            && Sound(t, a, lines)
            && Covered(t, AdvisoryPart(t, AdvisorySection(a)), Records(lines), today)
            && CoveredAfter(t, AdvisoryPart(t, AdvisorySection(a)), PackagePart(PackageSection(a)), Records(lines),
               today)
  {
    if Readable(a) {
      ReadsExactly(Str(t), a);
      CoveredParts(t, AdvisoryPart(t, AdvisorySection(a)), PackagePart(PackageSection(a)), Records(lines), today);
    }
  }

  lemma SoundPermuted(t: Text, a: JVal, b: JVal, lines: seq<string>)
    requires SameReport(a, b) && Sound(t, a, lines)
    ensures Sound(t, b, lines)
    ensures Permutation(AdvisoryPart(t, AdvisorySection(a)), AdvisoryPart(t, AdvisorySection(b)))
    ensures Permutation(PackagePart(PackageSection(a)), PackagePart(PackageSection(b)))
  {
    ReadablePermuted(a, b);
    YieldedPermuted(Str(t), a, b);
    SeveritiesOrder(Yielded(Str(t), a), Yielded(Str(t), b));
    ReadsExactly(Str(t), a);
    ReadsExactly(Str(t), b);
    GatherPermuted(AdvisoryOf(Str(t)), AdvisorySection(a), AdvisorySection(b));
    GatherPermuted(VulnOf(), PackageSection(a), PackageSection(b));
  }

  lemma SameReportBack(a: JVal, b: JVal)
    requires SameReport(a, b)
    ensures SameReport(b, a)
  {
  }

  // ---------------------------------------------------------------- a report in any order of its sections

  function Resection(v: JVal, section: seq<Named>): JVal {
    if v.JObj? then JObj(section) else v
  }

  /** The report a with its sections replaced. */
  function Rearranged(a: JVal, advisories: seq<Named>, packages: seq<Named>): JVal
    requires a.JObj?
  {
    JObj([("error", Get(a, "error")), ("errors", Get(a, "errors")),
          ("advisories", Resection(Get(a, "advisories"), advisories)),
          ("vulnerabilities", Resection(Get(a, "vulnerabilities"), packages))])
  }

  lemma FourFields(a: JVal, b: JVal, c: JVal, d: JVal, key: string)
    ensures var o := JObj([("error", a), ("errors", b), ("advisories", c), ("vulnerabilities", d)]);
              Get(o, key) == if key == "error" then a else if key == "errors" then b
                             else if key == "advisories" then c else if key == "vulnerabilities" then d else JNull
  {
    var r := [("vulnerabilities", d)];
    var q := [("advisories", c)] + r;
    var p := [("errors", b)] + q;
    GetSkips("error", a, p, key);
    GetSkips("errors", b, q, key);
    GetSkips("advisories", c, r, key);
    assert r == [("vulnerabilities", d)] + [];
    GetSkips("vulnerabilities", d, [], key);
    assert [("error", a), ("errors", b), ("advisories", c), ("vulnerabilities", d)] == [("error", a)] + p;
  }

  lemma RearrangedSame(a: JVal, advisories: seq<Named>, packages: seq<Named>)
    requires a.JObj? && Permutation(advisories, AdvisorySection(a)) && Permutation(packages, PackageSection(a))
    ensures var b := Rearranged(a, advisories, packages);
              SameReport(a, b) && AdvisorySection(b) == advisories && PackageSection(b) == packages
  {
    var c, d := Resection(Get(a, "advisories"), advisories), Resection(Get(a, "vulnerabilities"), packages);
    FourFields(Get(a, "error"), Get(a, "errors"), c, d, "error");
    FourFields(Get(a, "error"), Get(a, "errors"), c, d, "errors");
    FourFields(Get(a, "error"), Get(a, "errors"), c, d, "advisories");
    FourFields(Get(a, "error"), Get(a, "errors"), c, d, "vulnerabilities");
    assert |"error"| == 5 && |"errors"| == 6 && |"advisories"| == 10 && |"vulnerabilities"| == 15;
    assert |multiset(advisories)| == |advisories| && |multiset(packages)| == |packages|;
  }

  /** Every advisory gives one entry. */
  ghost predicate Gives(show: JVal -> string, section: seq<Named>, es: seq<Entry>) {
    |section| == |es| && forall i | 0 <= i < |es| :: EntryOfAdvisory(show, section[i].1) == Ok(es[i])
  }

  lemma {:induction false} GivesExact(show: JVal -> string, section: seq<Named>, es: seq<Entry>)
    ensures AdvisoryEntries(show, section) == Ok(es) <==> Gives(show, section, es)
  {
    if section != [] {
      var front, last := section[..|section| - 1], section[|section| - 1];
      var e := EntryOfAdvisory(show, last.1);
      if es != [] {
        var most := es[..|es| - 1];
        GivesExact(show, front, most);
        Ends(es);
        if Gives(show, front, most) && e == Ok(es[|es| - 1]) {
          assert AdvisoryEntries(show, section) == Ok(most + [e.value]);
        }
      }
      if AdvisoryEntries(show, section) == Ok(es) {
        var most := AdvisoryEntries(show, front).value;
        assert es == most + [e.value];
        GivesExact(show, front, most);
      }
    }
  }

  /** Every order of the advisories' entries is the order of some section. */
  lemma {:induction false} Lifted(show: JVal -> string, section: seq<Named>, es: seq<Entry>, p: seq<Entry>)
    returns (c: seq<Named>)
    requires Gives(show, section, es) && Permutation(p, es)
    ensures Permutation(c, section) && Gives(show, c, p)
    decreases |es|
  {
    assert |multiset(p)| == |p| && |multiset(es)| == |es|;
    if es == [] {
      c := [];
    } else {
      var last, x := es[|es| - 1], section[|es| - 1];
      var before, after := TakeLast(es, p);
      var rest := Lifted(show, section[..|es| - 1], es[..|es| - 1], before + after);
      c := rest[..|before|] + [x] + rest[|before|..];
      PutBack(rest, x, |before|, section);
      forall i | 0 <= i < |p| ensures EntryOfAdvisory(show, c[i].1) == Ok(p[i]) {
        if i < |before| {
          assert p[i] == (before + after)[i];
        } else if i > |before| {
          assert p[i] == (before + after)[i - 1];
        }
      }
    }
  }

  lemma PutBack<T>(rest: seq<T>, x: T, k: nat, s: seq<T>)
    requires s != [] && s[|s| - 1] == x && Permutation(rest, s[..|s| - 1]) && k <= |rest|
    ensures Permutation(rest[..k] + [x] + rest[k..], s)
  {
    assert rest == rest[..k] + rest[k..];
    assert s == s[..|s| - 1] + [x];
  }

  // ---------------------------------------------------------------- every order

  /** Every relevant entry of a package has an advisory and, if no advisory entry is about the same thing, is
      excused. */
  ghost predicate StrictAfter(t: Text, ds: seq<Entry>, es: seq<Entry>, excs: seq<Exception>, today: int) {
    forall e | e in es && Relevant(t, e) :: EntryKey(t, e).1 != "" && (!Taken(t, ds, e) ==> Excused(t, e, excs, today))
  }

  lemma StrictAfterCovers(t: Text, ds: seq<Entry>, es: seq<Entry>, cs: seq<Entry>, bs: seq<Entry>, excs: seq<Exception>,
                          today: int)
    requires StrictAfter(t, ds, es, excs, today) && Permutation(ds, cs) && Permutation(es, bs)
    ensures CoveredAfter(t, cs, bs, excs, today)
  {
    forall i | 0 <= i < |bs| ensures SettledAfter(t, cs, bs, excs, today, i) {
      SameMembers(es, bs, bs[i]);
      if Taken(t, ds, bs[i]) { TakenPermuted(t, ds, cs, bs[i]); }
    }
  }

  /** All entries of a package share its name and severity. */
  lemma OfPackage(x: Named, e: Entry)
    requires EntriesOfVuln(x.0, x.1).Ok? && e in EntriesOfVuln(x.0, x.1).value
    ensures x.1.JObj? && e.name == JStr(x.0) && e.severity == Get(x.1, "severity")
  {
    ItemMembers(x.0, Get(x.1, "severity"), ViaItems(x.1), e);
  }

  /** A package that stands first passes only if its entries are excused, those that an advisory is about set aside. */
  lemma FrontPackage(t: Text, ds: seq<Entry>, x: Named, rest: seq<Named>, e: Entry, excs: seq<Exception>, today: int)
    requires VulnEntries([x] + rest).Ok? && EntriesOfVuln(x.0, x.1).Ok? && e in EntriesOfVuln(x.0, x.1).value
    requires CoveredAfter(t, ds, PackagePart([x] + rest), excs, today) && Relevant(t, e)
    ensures EntryKey(t, e).1 != "" && (!Taken(t, ds, e) ==> Excused(t, e, excs, today))
  {
    var own, es := EntriesOfVuln(x.0, x.1).value, PackagePart([x] + rest);
    GatherConcat(VulnOf(), [x], rest);
    assert [x][..0] == [];
    assert Gather(VulnOf(), [x]) == Append(Ok([]), EntriesOfVuln(x.0, x.1));
    assert [] + own == own;
    var i :| 0 <= i < |own| && own[i] == e;
    assert es[..|own|] == own && es[i] == e;
    var j := FirstOf(t, es, i);
    assert es[j] == own[j];
    OfPackage(x, e);
    OfPackage(x, es[j]);
    assert SettledAfter(t, ds, es, excs, today, i) && SettledAfter(t, ds, es, excs, today, j);
    assert Severity(t, es[j]) == Severity(t, e);
  }

  /** The package an entry comes from. */
  lemma {:induction false} PackageOf(section: seq<Named>, e: Entry) returns (m: nat)
    requires VulnEntries(section).Ok? && e in PackagePart(section)
    ensures m < |section| && EntriesOfVuln(section[m].0, section[m].1).Ok?
            && e in EntriesOfVuln(section[m].0, section[m].1).value
  {
    var front, last := section[..|section| - 1], section[|section| - 1];
    if e in EntriesOfVuln(last.0, last.1).value {
      m := |section| - 1;
    } else {
      m := PackageOf(front, e);
    }
  }

  lemma PackageFirst(section: seq<Named>, m: nat)
    requires m < |section|
    ensures Permutation([section[m]] + (section[..m] + section[m + 1..]), section)
  {
    assert section == section[..m] + [section[m]] + section[m + 1..];
  }

  // ---------------------------------------------------------------- the exit code

  /** Any order of the advisories' entries and any of the packages make a report. */
  lemma InOrder(t: Text, a: JVal, p: seq<Entry>, packages: seq<Named>, lines: seq<string>, today: int) returns (b: JVal)
    requires a.JObj? && Sound(t, a, lines)
    requires Permutation(p, AdvisoryPart(t, AdvisorySection(a))) && Permutation(packages, PackageSection(a))
    ensures SameReport(a, b)
    ensures Accepts(t, b, lines, today) <==>
            Covered(t, p, Records(lines), today) && CoveredAfter(t, p, PackagePart(packages), Records(lines), today)
  {
    var section := AdvisorySection(a);
    ReadsExactly(Str(t), a);
    GivesExact(Str(t), section, AdvisoryPart(t, section));
    var c := Lifted(Str(t), section, AdvisoryPart(t, section), p);
    GivesExact(Str(t), c, p);
    b := Rearranged(a, c, packages);
    RearrangedSame(a, c, packages);
    SoundPermuted(t, a, b, lines);
    AcceptsParts(t, b, lines, today);
  }

  /** If every order of a report is accepted, each advisory entry is excused on its own. */
  lemma AdvisoriesStrict(t: Text, a: JVal, lines: seq<string>, today: int)
    requires a.JObj? && Sound(t, a, lines)
    requires forall b | SameReport(a, b) :: Accepts(t, b, lines, today)
    ensures Strict(t, AdvisoryPart(t, AdvisorySection(a)), Records(lines), today)
  {
    var es := AdvisoryPart(t, AdvisorySection(a));
    forall p | Permutation(p, es) ensures Covered(t, p, Records(lines), today) {
      var b := InOrder(t, a, p, PackageSection(a), lines, today);
    }
    EveryOrder(t, es, Records(lines), today);
  }

  /** And each package entry that no advisory entry stands for. */
  lemma PackagesStrict(t: Text, a: JVal, lines: seq<string>, today: int)
    requires a.JObj? && Sound(t, a, lines)
    requires forall b | SameReport(a, b) :: Accepts(t, b, lines, today)
    ensures StrictAfter(t, AdvisoryPart(t, AdvisorySection(a)), PackagePart(PackageSection(a)), Records(lines), today)
  {
    var ds, section := AdvisoryPart(t, AdvisorySection(a)), PackageSection(a);
    ReadsExactly(Str(t), a);
    forall e | e in PackagePart(section) && Relevant(t, e)
      ensures EntryKey(t, e).1 != "" && (!Taken(t, ds, e) ==> Excused(t, e, Records(lines), today))
    {
      var m := PackageOf(section, e);
      var rest := section[..m] + section[m + 1..];
      PackageFirst(section, m);
      PackagesRead(section, [section[m]] + rest);
      var b := InOrder(t, a, ds, [section[m]] + rest, lines, today);
      FrontPackage(t, ds, section[m], rest, e, Records(lines), today);
    }
  }

  lemma PackagesRead(a: seq<Named>, b: seq<Named>)
    requires VulnEntries(a).Ok? && Permutation(b, a)
    ensures VulnEntries(b).Ok?
  {
    VulnsRead(a);
    VulnsRead(b);
    forall i | 0 <= i < |b| ensures Titled(b[i].1) {
      SameMembers(a, b, b[i]);
      var j :| 0 <= j < |a| && a[j] == b[i];
    }
  }

  /** A report is accepted in every order if and only if all else is in order, every relevant advisory entry is excused,
      and so is every relevant package entry that no relevant advisory entry is about. */
  lemma EveryReportOrder(t: Text, a: JVal, lines: seq<string>, today: int)
    requires a.JObj?
    ensures (forall b | SameReport(a, b) :: Accepts(t, b, lines, today)) <==>
            && Sound(t, a, lines)
            && Strict(t, AdvisoryPart(t, AdvisorySection(a)), Records(lines), today)
            && StrictAfter(t, AdvisoryPart(t, AdvisorySection(a)), PackagePart(PackageSection(a)), Records(lines),
               today)
  {
    var ds, es, excs := AdvisoryPart(t, AdvisorySection(a)), PackagePart(PackageSection(a)), Records(lines);
    if Sound(t, a, lines) && Strict(t, ds, excs, today) && StrictAfter(t, ds, es, excs, today) {
      forall b | SameReport(a, b) ensures Accepts(t, b, lines, today) {
        var cs, bs := AdvisoryPart(t, AdvisorySection(b)), PackagePart(PackageSection(b));
        SoundPermuted(t, a, b, lines);
        StrictOrder(t, ds, cs, excs, today);
        StrictCovers(t, cs, excs, today);
        StrictAfterCovers(t, ds, es, cs, bs, excs, today);
        AcceptsParts(t, b, lines, today);
      }
    }
    if forall b | SameReport(a, b) :: Accepts(t, b, lines, today) {
      assert SameReport(a, a);
      AcceptsParts(t, a, lines, today);
      AdvisoriesStrict(t, a, lines, today);
      PackagesStrict(t, a, lines, today);
    }
  }

  // ---------------------------------------------------------------- some order

  /** Some order of the packages passes behind the advisories. */
  ghost predicate SomePackageOrder(t: Text, ds: seq<Entry>, section: seq<Named>, excs: seq<Exception>, today: int) {
    exists d | Permutation(d, section) :: CoveredAfter(t, ds, PackagePart(d), excs, today)
  }

  /** A report is accepted in some order if and only if all else is in order, every relevant advisory entry has one
      about the same thing that is excused, and some order of the packages passes. */
  lemma SomeReportOrder(t: Text, a: JVal, lines: seq<string>, today: int)
    requires a.JObj?
    ensures (exists b | SameReport(a, b) :: Accepts(t, b, lines, today)) <==>
            && Sound(t, a, lines)
            && AllServed(t, AdvisoryPart(t, AdvisorySection(a)), Records(lines), today)
            && SomePackageOrder(t, AdvisoryPart(t, AdvisorySection(a)), PackageSection(a), Records(lines), today)
  {
    var ds, excs := AdvisoryPart(t, AdvisorySection(a)), Records(lines);
    if Sound(t, a, lines) && AllServed(t, ds, excs, today) && SomePackageOrder(t, ds, PackageSection(a), excs, today) {
      var p := Pick(t, ds, excs, today, true) + Pick(t, ds, excs, today, false);
      ExcusedFirst(t, ds, excs, today);
      var d :| Permutation(d, PackageSection(a)) && CoveredAfter(t, ds, PackagePart(d), excs, today);
      AfterPermuted(t, ds, p, PackagePart(d), excs, today);
      var b := InOrder(t, a, p, d, lines, today);
    }
    if b :| SameReport(a, b) && Accepts(t, b, lines, today) {
      var cs := AdvisoryPart(t, AdvisorySection(b));
      SameReportBack(a, b);
      AcceptsParts(t, b, lines, today);
      SoundPermuted(t, b, a, lines);
      CoveredServes(t, cs, excs, today);
      ServedOrder(t, cs, ds, excs, today);
      AfterPermuted(t, cs, ds, PackagePart(PackageSection(b)), excs, today);
    }
  }

  /** So the order of a report decides its verdict if and only if some order passes and not every order does. */
  lemma ReportOrderDecides(t: Text, a: JVal, lines: seq<string>, today: int)
    requires a.JObj?
    ensures var ds, es, excs := AdvisoryPart(t, AdvisorySection(a)), PackagePart(PackageSection(a)), Records(lines);
              (exists b, c | SameReport(a, b) && SameReport(a, c) ::
                 Accepts(t, b, lines, today) && !Accepts(t, c, lines, today)) <==>
              && Sound(t, a, lines)
              && AllServed(t, ds, excs, today) && SomePackageOrder(t, ds, PackageSection(a), excs, today)
              && !(Strict(t, ds, excs, today) && StrictAfter(t, ds, es, excs, today))
  {
    EveryReportOrder(t, a, lines, today);
    SomeReportOrder(t, a, lines, today);
  }

  // ---------------------------------------------------------------- packages with names of their own

  /** No two packages have the same name, the space around it set aside. */
  ghost predicate NamesApart(t: Text, section: seq<Named>) {
    forall i, j | 0 <= i < j < |section| ::
      NormalizePackage(t, JStr(section[i].0)) != NormalizePackage(t, JStr(section[j].0))
  }

  lemma SamePackage(t: Text, section: seq<Named>, d: Entry, e: Entry)
    requires VulnEntries(section).Ok? && NamesApart(t, section) && d in PackagePart(section)
    requires e in PackagePart(section)
    requires EntryKey(t, d) == EntryKey(t, e)
    ensures d.severity == e.severity
  {
    var i := PackageOf(section, d);
    var j := PackageOf(section, e);
    OfPackage(section[i], d);
    OfPackage(section[j], e);
    if i < j {
      assert false;
    } else if j < i {
      assert false;
    }
  }

  /** Then their order does not matter. */
  lemma ApartPackages(t: Text, ds: seq<Entry>, section: seq<Named>, d: seq<Named>, excs: seq<Exception>, today: int)
    requires VulnEntries(section).Ok? && NamesApart(t, section) && Permutation(d, section)
    ensures CoveredAfter(t, ds, PackagePart(d), excs, today) <==> StrictAfter(t, ds, PackagePart(section), excs, today)
  {
    PackagesRead(section, d);
    GatherPermuted(VulnOf(), section, d);
    var es, bs := PackagePart(section), PackagePart(d);
    if StrictAfter(t, ds, es, excs, today) { StrictAfterCovers(t, ds, es, ds, bs, excs, today); }
    if CoveredAfter(t, ds, bs, excs, today) {
      forall e | e in es && Relevant(t, e)
        ensures EntryKey(t, e).1 != "" && (!Taken(t, ds, e) ==> Excused(t, e, excs, today))
      {
        SameMembers(es, bs, e);
        var i :| 0 <= i < |bs| && bs[i] == e;
        var j := FirstOf(t, bs, i);
        SameMembers(es, bs, bs[j]);
        SamePackage(t, section, bs[j], e);
        assert SettledAfter(t, ds, bs, excs, today, i) && SettledAfter(t, ds, bs, excs, today, j);
      }
    }
  }

  /** For packages with names of their own, as package managers give them, only the order of the advisories can
      decide. */
  lemma AdvisoryOrderDecides(t: Text, a: JVal, lines: seq<string>, today: int)
    requires a.JObj? && NamesApart(t, PackageSection(a))
    ensures var ds, es, excs := AdvisoryPart(t, AdvisorySection(a)), PackagePart(PackageSection(a)), Records(lines);
              (exists b, c | SameReport(a, b) && SameReport(a, c) ::
                 Accepts(t, b, lines, today) && !Accepts(t, c, lines, today)) <==>
              && Sound(t, a, lines) && StrictAfter(t, ds, es, excs, today)
              && AllServed(t, ds, excs, today) && !Strict(t, ds, excs, today)
  {
    var ds, section, excs := AdvisoryPart(t, AdvisorySection(a)), PackageSection(a), Records(lines);
    ReportOrderDecides(t, a, lines, today);
    if Sound(t, a, lines) {
      ReadsExactly(Str(t), a);
      forall d | Permutation(d, section)
        ensures CoveredAfter(t, ds, PackagePart(d), excs, today) <==>
                StrictAfter(t, ds, PackagePart(section), excs, today)
      {
        ApartPackages(t, ds, section, d, excs, today);
      }
      assert Permutation(section, section);
    }
  }
}
