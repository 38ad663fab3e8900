/**
 The vulnerabilities of a pnpm audit report: which advisory identifies each, and what the report's two layouts yield
 (tools/check_pnpm_audit_exceptions.py:51-111).
 */
module AuditReport {
  import opened Wrappers

  /** A decoded JSON value; an object keeps its keys in order, each once. */
  datatype JVal =
    | JNull
    | JBool(b: bool)
    | JNum(n: int)
    | JStr(s: string)
    | JList(items: seq<JVal>)
    | JObj(entries: seq<(string, JVal)>)

  /** The value in a boolean position. */
  predicate Truthy(v: JVal) {
    match v
    case JNull => false
    case JBool(b) => b
    case JNum(n) => n != 0
    case JStr(s) => s != ""
    case JList(items) => items != []
    case JObj(entries) => entries != []
  }

  /** dict.get, None for a key that is missing. */
  function Get(v: JVal, key: string): JVal
    requires v.JObj?
    decreases |v.entries|
  {
    if v.entries == [] then JNull
    else if v.entries[0].0 == key then v.entries[0].1
    else Get(JObj(v.entries[1..]), key)
  }

  function Or(a: JVal, b: JVal): JVal {
    if Truthy(a) then a else b
  }

  /** An exception that ends the program: a value of a type the code does not expect. */
  datatype Crash = Crash

  /** `v[0]` on a true value. */
  function FirstItem(v: JVal): Result<JVal, Crash> {
    match v
    case JList(items) => if items != [] then Ok(items[0]) else Err(Crash)
    case JStr(s) => if s != "" then Ok(JStr(s[..1])) else Err(Crash)
    case _ => Err(Crash)
  }

  /** pick_advisory_id; `show` is str(). */
  function PickAdvisoryID(show: JVal -> string, a: JVal): Result<JVal, Crash>
    requires a.JObj?
  {
    var stable := Or(Get(a, "github_advisory_id"), Get(a, "url"));
    if Truthy(stable) then Ok(stable)
    else
      var cves := Get(a, "cves");
      var cve := if Truthy(cves) then FirstItem(cves) else Ok(JNull);
      if cve.Err? || Truthy(cve.value) then cve
      else
        var id := if Get(a, "id").JNull? then JNull else JStr(show(Get(a, "id")));
        Ok(Or(id, Or(Get(a, "title"), Or(Get(a, "advisory"), Get(a, "overview")))))
  }

  /** What iter_vulns gives, but for the title. */
  datatype Entry = Entry(name: JVal, severity: JVal, advisory: JVal)

  function EntryOfAdvisory(show: JVal -> string, a: JVal): Result<Entry, Crash> {
    if !a.JObj? then Err(Crash)
    else
      var id := PickAdvisoryID(show, a);
      if id.Err? then Err(Crash) else Ok(Entry(Or(Get(a, "module_name"), Get(a, "name")), Get(a, "severity"), id.value))
  }

  /** The advisory of one item of `via`, JNull for an item that is neither an object nor a string. */
  function ItemAdvisory(item: JVal): JVal {
    match item
    case JObj(_) =>
      Or(Get(item, "github_advisory_id"), Or(Get(item, "url"),
          Or(Get(item, "source"), Or(Get(item, "title"), Get(item, "name")))))
    case JStr(_) => item
    case _ => JNull
  }

  function ItemTitle(item: JVal): JVal {
    match item
    case JObj(_) => Or(Get(item, "title"), Or(Get(item, "url"), Or(Get(item, "advisory"), Get(item, "source"))))
    case JStr(_) => item
    case _ => JNull
  }

  /** The titles are joined into one string, which takes strings only; false ones are left out before. */
  predicate Joinable(item: JVal) {
    Truthy(ItemTitle(item)) ==> ItemTitle(item).JStr?
  }

  /** The items of `via`: a single string counts as a list of one. */
  function ViaItems(vuln: JVal): seq<JVal>
    requires vuln.JObj?
  {
    var via := Get(vuln, "via");
    if via.JList? then via.items else if via.JStr? then [via] else []
  }

  function ItemEntries(name: string, severity: JVal, items: seq<JVal>): seq<Entry> {
    if items == [] then []
    else
      var before, id := ItemEntries(name, severity, items[..|items| - 1]), ItemAdvisory(items[|items| - 1]);
      if Truthy(id) then before + [Entry(JStr(name), severity, id)] else before
  }

  function EntriesOfVuln(name: string, vuln: JVal): Result<seq<Entry>, Crash> {
    if !vuln.JObj? then Err(Crash)
    else if exists i | 0 <= i < |ViaItems(vuln)| :: !Joinable(ViaItems(vuln)[i]) then Err(Crash)
    else Ok(ItemEntries(name, Get(vuln, "severity"), ViaItems(vuln)))
  }

  function Append(a: Result<seq<Entry>, Crash>, b: Result<seq<Entry>, Crash>): Result<seq<Entry>, Crash> {
    if a.Err? then a else if b.Err? then b else Ok(a.value + b.value)
  }

  type Named = (string, JVal)

  /** What each of the entries gives, in order; the first that crashes ends it. */
  function Gather(gives: Named -> Result<seq<Entry>, Crash>, entries: seq<Named>): Result<seq<Entry>, Crash> {
    if entries == [] then Ok([])
    else Append(Gather(gives, entries[..|entries| - 1]), gives(entries[|entries| - 1]))
  }

  function AdvisoryOf(show: JVal -> string): Named -> Result<seq<Entry>, Crash> {
    (n: Named) =>
      var e := EntryOfAdvisory(show, n.1);
      if e.Err? then Err(Crash) else Ok([e.value])
  }

  function VulnOf(): Named -> Result<seq<Entry>, Crash> {
    (n: Named) => EntriesOfVuln(n.0, n.1)
  }

  function AdvisoryEntries(show: JVal -> string, entries: seq<Named>): Result<seq<Entry>, Crash> {
    Gather(AdvisoryOf(show), entries)
  }

  function VulnEntries(entries: seq<Named>): Result<seq<Entry>, Crash> {
    Gather(VulnOf(), entries)
  }

  /** The entries of a section, if the report has it as an object. */
  function Section(v: JVal): seq<Named> {
    if v.JObj? then v.entries else []
  }

  /** Everything iter_vulns gives, or the exception it raises on the way. */
  function IterVulns(show: JVal -> string, data: JVal): Result<seq<Entry>, Crash>
    requires data.JObj?
  {
    Append(AdvisoryEntries(show, Section(Get(data, "advisories"))), VulnEntries(Section(Get(data, "vulnerabilities"))))
  }

  // ---------------------------------------------------------------- the loops

  /** The entries of one package under `vulnerabilities`. */
  method YieldVuln(name: string, vuln: JVal) returns (r: Result<seq<Entry>, Crash>)
    ensures r == EntriesOfVuln(name, vuln)
  {
    if !vuln.JObj? {
      return Err(Crash);
    }
    var items := ViaItems(vuln);
    var advisories, titles: seq<JVal> := [], [];
    var i := 0;
    while i < |items|
      invariant 0 <= i <= |items| && |advisories| == |titles| == i
      invariant forall j | 0 <= j < i :: advisories[j] == ItemAdvisory(items[j]) && titles[j] == ItemTitle(items[j])
    {
      advisories, titles := advisories + [ItemAdvisory(items[i])], titles + [ItemTitle(items[i])];
      i := i + 1;
    }
    i := 0;
    while i < |titles|
      invariant 0 <= i <= |titles|
      invariant forall j | 0 <= j < i :: Joinable(items[j])
    {
      if Truthy(titles[i]) && !titles[i].JStr? {
        assert !Joinable(items[i]);
        return Err(Crash);
      }
      i := i + 1;
    }
    var es: seq<Entry> := [];
    i := 0;
    while i < |advisories|
      invariant 0 <= i <= |advisories|
      invariant es == ItemEntries(name, Get(vuln, "severity"), items[..i])
    {
      assert items[..i + 1][..i] == items[..i];
      if Truthy(advisories[i]) {
        es := es + [Entry(JStr(name), Get(vuln, "severity"), advisories[i])];
      }
      i := i + 1;
    }
    assert items[..i] == items;
    r := Ok(es);
  }

  method YieldAdvisories(show: JVal -> string, entries: seq<Named>) returns (r: Result<seq<Entry>, Crash>)
    ensures r == AdvisoryEntries(show, entries)
  {
    var es: seq<Entry> := [];
    var i := 0;
    while i < |entries|
      invariant 0 <= i <= |entries| && AdvisoryEntries(show, entries[..i]) == Ok(es)
    {
      assert entries[..i + 1][..i] == entries[..i];
      var e := EntryOfAdvisory(show, entries[i].1);
      if e.Err? {
        CrashStays(AdvisoryOf(show), entries, i + 1);
        return Err(Crash);
      }
      es := es + [e.value];
      i := i + 1;
    }
    assert entries[..i] == entries;
    r := Ok(es);
  }

  method YieldVulns(entries: seq<Named>) returns (r: Result<seq<Entry>, Crash>)
    ensures r == VulnEntries(entries)
  {
    var es: seq<Entry> := [];
    var i := 0;
    while i < |entries|
      invariant 0 <= i <= |entries| && VulnEntries(entries[..i]) == Ok(es)
    {
      assert entries[..i + 1][..i] == entries[..i];
      var more := YieldVuln(entries[i].0, entries[i].1);
      if more.Err? {
        CrashStays(VulnOf(), entries, i + 1);
        return Err(Crash);
      }
      es := es + more.value;
      i := i + 1;
    }
    assert entries[..i] == entries;
    r := Ok(es);
  }

  method YieldAll(show: JVal -> string, data: JVal) returns (r: Result<seq<Entry>, Crash>)
    requires data.JObj?
    ensures r == IterVulns(show, data)
  {
    r := YieldAdvisories(show, Section(Get(data, "advisories")));
    if r.Ok? {
      var more := YieldVulns(Section(Get(data, "vulnerabilities")));
      r := Append(r, more);
    }
  }

  lemma {:induction false} CrashStays(gives: Named -> Result<seq<Entry>, Crash>, entries: seq<Named>, n: nat)
    requires n <= |entries| && Gather(gives, entries[..n]).Err?
    ensures Gather(gives, entries) == Err(Crash)
    decreases |entries|
  {
    if n < |entries| {
      assert entries[..|entries| - 1][..n] == entries[..n];
      CrashStays(gives, entries[..|entries| - 1], n);
    } else {
      assert entries[..n] == entries;
      assert Gather(gives, entries).error.Crash?;
    }
  }

  // ---------------------------------------------------------------- what is yielded

  /** Entry e comes from one of the advisories. */
  ghost predicate FromAdvisories(show: JVal -> string, entries: seq<Named>, e: Entry) {
    exists i | 0 <= i < |entries| :: EntryOfAdvisory(show, entries[i].1) == Ok(e)
  }

  /** Entry e comes from one item of the `via` of one package. */
  ghost predicate FromVulnerabilities(entries: seq<Named>, e: Entry) {
    exists i, k | 0 <= i < |entries| && entries[i].1.JObj? && 0 <= k < |ViaItems(entries[i].1)| ::
      Truthy(ItemAdvisory(ViaItems(entries[i].1)[k])) &&
      e == Entry(JStr(entries[i].0), Get(entries[i].1, "severity"), ItemAdvisory(ViaItems(entries[i].1)[k]))
  }

  lemma {:induction false} AdvisoryMembers(show: JVal -> string, entries: seq<Named>, e: Entry)
    requires AdvisoryEntries(show, entries).Ok?
    ensures e in AdvisoryEntries(show, entries).value <==> FromAdvisories(show, entries, e)
  {
    if entries != [] {
      var front, last := entries[..|entries| - 1], entries[|entries| - 1];
      AdvisoryMembers(show, front, e);
      if FromAdvisories(show, front, e) {
        var i :| 0 <= i < |front| && EntryOfAdvisory(show, front[i].1) == Ok(e);
        assert EntryOfAdvisory(show, entries[i].1) == Ok(e);
      }
      if FromAdvisories(show, entries, e) {
        var i :| 0 <= i < |entries| && EntryOfAdvisory(show, entries[i].1) == Ok(e);
        assert i == |entries| - 1 || EntryOfAdvisory(show, front[i].1) == Ok(e);
      }
    }
  }

  lemma {:induction false} ItemMembers(name: string, severity: JVal, items: seq<JVal>, e: Entry)
    ensures e in ItemEntries(name, severity, items) <==>
            exists k | 0 <= k < |items| :: Truthy(ItemAdvisory(items[k]))
                && e == Entry(JStr(name), severity, ItemAdvisory(items[k]))
  {
    if items != [] { ItemMembers(name, severity, items[..|items| - 1], e); }
  }

  lemma {:induction false} VulnMembers(entries: seq<Named>, e: Entry)
    requires VulnEntries(entries).Ok?
    ensures e in VulnEntries(entries).value <==> FromVulnerabilities(entries, e)
  {
    if entries != [] {
      var front, last := entries[..|entries| - 1], entries[|entries| - 1];
      VulnMembers(front, e);
      LastVuln(last, e);
      assert entries == front + [last];
      SplitVulns(front, last, e);
    }
  }

  lemma LastVuln(last: (string, JVal), e: Entry)
    requires EntriesOfVuln(last.0, last.1).Ok?
    ensures e in EntriesOfVuln(last.0, last.1).value <==> FromVulnerabilities([last], e)
  {
    ItemMembers(last.0, Get(last.1, "severity"), ViaItems(last.1), e);
    assert [last][0] == last;
  }

  lemma SplitVulns(front: seq<Named>, last: (string, JVal), e: Entry)
    ensures FromVulnerabilities(front + [last], e) <==> FromVulnerabilities(front, e) || FromVulnerabilities([last], e)
  {
    var entries := front + [last];
    assert forall i | 0 <= i < |front| :: entries[i] == front[i];
    assert entries[|front|] == last && [last][0] == last;
  }

  /** The false values are null, false, 0 and what is empty. */
  lemma FalseValues(v: JVal)
    ensures !Truthy(v) <==>
            v == JNull || v == JBool(false) || v == JNum(0) || v == JStr("") || v == JList([]) || v == JObj([])
  {
  }

  /** Looking up a key of an object whose keys are different finds its value, and null without one. */
  lemma {:induction false} GetExact(entries: seq<Named>, key: string, v: JVal)
    requires forall i, j | 0 <= i < j < |entries| :: entries[i].0 != entries[j].0
    ensures Get(JObj(entries), key) == v <==>
            (key, v) in entries || (v == JNull && forall i | 0 <= i < |entries| :: entries[i].0 != key)
    decreases |entries|
  {
    if entries != [] {
      assert entries == [entries[0]] + entries[1..];
      if entries[0].0 != key { GetExact(entries[1..], key, v); }
    }
  }

  /** The first item of the CVE list, or the first character of a text. */
  ghost predicate FirstCVE(a: JVal, cve: JVal)
    requires a.JObj?
  {
    match Get(a, "cves")
    case JList(items) => items != [] && cve == items[0]
    case JStr(s) => s != "" && cve == JStr([s[0]])
    case _ => false
  }

  /** What identifies an advisory: its GHSA id or else its URL, or else its first CVE, or else its number as a text, or
      else its title, its advisory text or its overview, whichever of these is true first. */
  ghost predicate IdentifiedBy(show: JVal -> string, a: JVal, id: JVal)
    requires a.JObj?
  {
    var ghsa, url, number := Get(a, "github_advisory_id"), Get(a, "url"), Get(a, "id");
    var title, advisory, overview := Get(a, "title"), Get(a, "advisory"), Get(a, "overview");
    if Truthy(ghsa) then id == ghsa
    else if Truthy(url) then id == url
    else if exists cve :: FirstCVE(a, cve) && Truthy(cve) then FirstCVE(a, id)
    else if number != JNull && show(number) != "" then id == JStr(show(number))
    else if Truthy(title) then id == title
    else if Truthy(advisory) then id == advisory
    else id == overview
  }

  /** The package: the module name or else the name. */
  ghost predicate NamedBy(a: JVal, name: JVal)
    requires a.JObj?
  {
    if Truthy(Get(a, "module_name")) then name == Get(a, "module_name") else name == Get(a, "name")
  }

  /** What an advisory gives. */
  ghost predicate GivenByAdvisory(show: JVal -> string, a: JVal, e: Entry) {
    a.JObj? && IdentifiedBy(show, a, e.advisory) && NamedBy(a, e.name) && e.severity == Get(a, "severity")
  }

  lemma AdvisoryGives(show: JVal -> string, a: JVal, e: Entry)
    requires EntryOfAdvisory(show, a).Ok?
    ensures EntryOfAdvisory(show, a) == Ok(e) <==> GivenByAdvisory(show, a, e)
  {
    CVEGives(show, a, e.advisory);
  }

  lemma CVEGives(show: JVal -> string, a: JVal, id: JVal)
    requires a.JObj? && PickAdvisoryID(show, a).Ok?
    ensures PickAdvisoryID(show, a) == Ok(id) <==> IdentifiedBy(show, a, id)
  {
    var cves := Get(a, "cves");
    if Truthy(cves) && FirstItem(cves).Ok? {
      assert forall cve :: FirstCVE(a, cve) <==> cve == FirstItem(cves).value;
    } else {
      assert forall cve :: !FirstCVE(a, cve);
    }
  }

  /** What identifies a `via` item: a text itself; of an object the GHSA id or else the URL, the source, the title or
      the name. */
  ghost predicate ItemIdentifiedBy(item: JVal, id: JVal) {
    match item
    case JStr(_) => id == item
    case JObj(_) =>
      var ghsa, url, source := Get(item, "github_advisory_id"), Get(item, "url"), Get(item, "source");
      if Truthy(ghsa) then id == ghsa
      else if Truthy(url) then id == url
      else if Truthy(source) then id == source
      else if Truthy(Get(item, "title")) then id == Get(item, "title")
      else id == Get(item, "name")
    case _ => false
  }

  /** An item of the package's `via`, which may be a text instead of a list. */
  ghost predicate IsViaItem(vuln: JVal, item: JVal)
    requires vuln.JObj?
  {
    match Get(vuln, "via")
    case JList(items) => item in items
    case JStr(s) => item == JStr(s)
    case _ => false
  }

  /** What a package under `vulnerabilities` gives: an entry with its own name and severity for each true identifier. */
  ghost predicate GivenByPackage(name: string, vuln: JVal, e: Entry) {
    && vuln.JObj? && e.name == JStr(name) && e.severity == Get(vuln, "severity") && Truthy(e.advisory)
    && exists item :: IsViaItem(vuln, item) && ItemIdentifiedBy(item, e.advisory)
  }

  lemma ItemGives(item: JVal, id: JVal)
    ensures Truthy(id) ==> (ItemAdvisory(item) == id <==> ItemIdentifiedBy(item, id))
  {
  }

  lemma PackageGives(vuln: Named, e: Entry)
    ensures FromVulnerabilities([vuln], e) <==> GivenByPackage(vuln.0, vuln.1, e)
  {
    assert [vuln][0] == vuln;
    if vuln.1.JObj? {
      var items := ViaItems(vuln.1);
      assert forall item :: IsViaItem(vuln.1, item) <==> item in items;
      forall k | 0 <= k < |items| ensures Truthy(e.advisory) ==>
          (ItemAdvisory(items[k]) == e.advisory <==> ItemIdentifiedBy(items[k], e.advisory)) {
        ItemGives(items[k], e.advisory);
      }
      if GivenByPackage(vuln.0, vuln.1, e) {
        var item :| IsViaItem(vuln.1, item) && ItemIdentifiedBy(item, e.advisory);
        var k :| 0 <= k < |items| && items[k] == item;
      }
    }
  }

  /** An entry of one of the sections, where the report has it as an object. */
  ghost predicate InSection(data: JVal, section: string, n: Named)
    requires data.JObj?
  {
    match Get(data, section)
    case JObj(entries) => n in entries
    case _ => false
  }

  lemma SectionMembers(data: JVal)
    requires data.JObj?
    ensures forall n :: n in Section(Get(data, "advisories")) <==> InSection(data, "advisories", n)
    ensures forall n :: n in Section(Get(data, "vulnerabilities")) <==> InSection(data, "vulnerabilities", n)
  {
  }

  /** An entry is yielded if and only if some advisory gives it, or some package does. */
  lemma YieldedExactly(show: JVal -> string, data: JVal, e: Entry)
    requires data.JObj? && IterVulns(show, data).Ok?
    ensures e in IterVulns(show, data).value <==>
            || (exists n | InSection(data, "advisories", n) :: GivenByAdvisory(show, n.1, e))
            || (exists n | InSection(data, "vulnerabilities", n) :: GivenByPackage(n.0, n.1, e))
  {
    SectionMembers(data);
    AdvisoriesGive(show, Section(Get(data, "advisories")), e);
    PackagesGive(Section(Get(data, "vulnerabilities")), e);
  }

  lemma AdvisoriesGive(show: JVal -> string, entries: seq<Named>, e: Entry)
    requires AdvisoryEntries(show, entries).Ok?
    ensures e in AdvisoryEntries(show, entries).value <==> exists n | n in entries :: GivenByAdvisory(show, n.1, e)
  {
    AdvisoryMembers(show, entries, e);
    forall i | 0 <= i < |entries|
      ensures EntryOfAdvisory(show, entries[i].1) == Ok(e) <==> GivenByAdvisory(show, entries[i].1, e)
    {
      EachReads(show, entries, i);
      AdvisoryGives(show, entries[i].1, e);
    }
  }

  lemma {:induction false} EachReads(show: JVal -> string, entries: seq<Named>, i: nat)
    requires AdvisoryEntries(show, entries).Ok? && i < |entries|
    ensures EntryOfAdvisory(show, entries[i].1).Ok?
  {
    if i < |entries| - 1 { EachReads(show, entries[..|entries| - 1], i); }
  }

  lemma PackagesGive(entries: seq<Named>, e: Entry)
    requires VulnEntries(entries).Ok?
    ensures e in VulnEntries(entries).value <==> exists n | n in entries :: GivenByPackage(n.0, n.1, e)
  {
    VulnMembers(entries, e);
    FromOne(entries, e);
    forall n | n in entries ensures FromVulnerabilities([n], e) <==> GivenByPackage(n.0, n.1, e) {
      PackageGives(n, e);
    }
  }

  lemma FromOne(entries: seq<Named>, e: Entry)
    ensures FromVulnerabilities(entries, e) <==> exists n | n in entries :: FromVulnerabilities([n], e)
  {
    if FromVulnerabilities(entries, e) {
      var i, k :| 0 <= i < |entries| && entries[i].1.JObj? && 0 <= k < |ViaItems(entries[i].1)| &&
        Truthy(ItemAdvisory(ViaItems(entries[i].1)[k])) &&
        e == Entry(JStr(entries[i].0), Get(entries[i].1, "severity"), ItemAdvisory(ViaItems(entries[i].1)[k]));
      var n := entries[i];
      assert [n][0] == n && n in entries;
      assert FromVulnerabilities([n], e);
    }
    if n :| n in entries && FromVulnerabilities([n], e) {
      var i :| 0 <= i < |entries| && entries[i] == n;
      assert [n][0] == n;
    }
  }

  // ---------------------------------------------------------------- which reports can be read

  /** An object that either has a stable identifier, or whose `cves`, looked at only then, can be indexed if it is
      true. */
  predicate Identifiable(a: JVal) {
    && a.JObj?
    && (Truthy(Get(a, "github_advisory_id")) || Truthy(Get(a, "url"))
        || !Truthy(Get(a, "cves")) || Get(a, "cves").JList? || Get(a, "cves").JStr?)
  }

  lemma AdvisoryReads(show: JVal -> string, a: JVal)
    ensures EntryOfAdvisory(show, a).Ok? <==> Identifiable(a)
  {
  }

  /** The first of title, url, advisory and source that is true, if any is, is a string. */
  predicate TitleIsText(item: JVal) {
    item.JObj? ==>
      var title, url, advisory, source := Get(item, "title"), Get(item, "url"), Get(item, "advisory"),
          Get(item, "source");
      && (Truthy(title) ==> title.JStr?)
      && (!Truthy(title) && Truthy(url) ==> url.JStr?)
      && (!Truthy(title) && !Truthy(url) && Truthy(advisory) ==> advisory.JStr?)
      && (!Truthy(title) && !Truthy(url) && !Truthy(advisory) && Truthy(source) ==> source.JStr?)
  }

  lemma TitleJoins(item: JVal)
    ensures Joinable(item) <==> TitleIsText(item)
  {
  }

  /** An object all of whose `via` items have titles that can be joined. */
  predicate Titled(vuln: JVal) {
    vuln.JObj? && forall k | 0 <= k < |ViaItems(vuln)| :: TitleIsText(ViaItems(vuln)[k])
  }

  lemma VulnReads(name: string, vuln: JVal)
    ensures EntriesOfVuln(name, vuln).Ok? <==> Titled(vuln)
  {
    if vuln.JObj? {
      forall k | 0 <= k < |ViaItems(vuln)| ensures Joinable(ViaItems(vuln)[k]) <==> TitleIsText(ViaItems(vuln)[k]) {
        TitleJoins(ViaItems(vuln)[k]);
      }
    }
  }

  predicate AllIdentifiable(entries: seq<Named>) {
    forall i | 0 <= i < |entries| :: Identifiable(entries[i].1)
  }

  predicate AllTitled(entries: seq<Named>) {
    forall i | 0 <= i < |entries| :: Titled(entries[i].1)
  }

  /** Every advisory can be identified, and every package's titles can be joined. */
  predicate Readable(data: JVal)
    requires data.JObj?
  {
    AllIdentifiable(Section(Get(data, "advisories"))) && AllTitled(Section(Get(data, "vulnerabilities")))
  }

  lemma {:induction false} AdvisoriesRead(show: JVal -> string, entries: seq<Named>)
    ensures AdvisoryEntries(show, entries).Ok? <==> AllIdentifiable(entries)
  {
    if entries != [] {
      AdvisoriesRead(show, entries[..|entries| - 1]);
      AdvisoryReads(show, entries[|entries| - 1].1);
    }
  }

  lemma {:induction false} VulnsRead(entries: seq<Named>)
    ensures VulnEntries(entries).Ok? <==> AllTitled(entries)
  {
    if entries != [] {
      VulnsRead(entries[..|entries| - 1]);
      VulnReads(entries[|entries| - 1].0, entries[|entries| - 1].1);
    }
  }

  /** Exactly these reports can be gone through to the end: every advisory can be identified, and every package is an
      object whose `via` items all have a title that is a text, if any. */
  lemma ReadsExactly(show: JVal -> string, data: JVal)
    requires data.JObj?
    ensures IterVulns(show, data).Ok? <==> Readable(data)
    ensures Readable(data) <==>
            && (forall n | InSection(data, "advisories", n) :: Identifiable(n.1))
            && forall n | InSection(data, "vulnerabilities", n) ::
                 n.1.JObj? && forall item | IsViaItem(n.1, item) :: TitleIsText(item)
  {
    AdvisoriesRead(show, Section(Get(data, "advisories")));
    VulnsRead(Section(Get(data, "vulnerabilities")));
    SectionMembers(data);
    AllMembers(Section(Get(data, "advisories")));
    AllMembers(Section(Get(data, "vulnerabilities")));
  }

  lemma AllMembers(entries: seq<Named>)
    ensures AllIdentifiable(entries) <==> forall n | n in entries :: Identifiable(n.1)
    ensures AllTitled(entries) <==>
            forall n | n in entries :: n.1.JObj? && forall item | IsViaItem(n.1, item) :: TitleIsText(item)
  {
    forall n | n in entries
      ensures Titled(n.1) <==> n.1.JObj? && forall item | IsViaItem(n.1, item) :: TitleIsText(item)
    {
      if n.1.JObj? { assert forall item :: IsViaItem(n.1, item) <==> item in ViaItems(n.1); }
    }
  }

  /** A `via` item that a number identifies and nothing names. */
  predicate OnlyNumbered(item: JVal) {
    && item.JObj? && Get(item, "source").JNum? && Truthy(Get(item, "source"))
    && !Truthy(Get(item, "title")) && !Truthy(Get(item, "url")) && !Truthy(Get(item, "advisory"))
  }

  /** Such an item, which normalize_advisory is prepared for, ends the program, whatever else the report holds: its
      number also becomes a title, and titles are joined as strings. */
  lemma NumericSourceCrashes(show: JVal -> string, data: JVal, i: nat, k: nat)
    requires data.JObj? && i < |Section(Get(data, "vulnerabilities"))|
    requires var vuln := Section(Get(data, "vulnerabilities"))[i].1;
               vuln.JObj? && k < |ViaItems(vuln)| && OnlyNumbered(ViaItems(vuln)[k])
    ensures IterVulns(show, data).Err?
  {
    var vuln := Section(Get(data, "vulnerabilities"))[i].1;
    ReadsExactly(show, data);
    assert !TitleIsText(ViaItems(vuln)[k]);
    assert !Titled(vuln);
  }

  /** What is yielded, where the report can be read. */
  function Yielded(show: JVal -> string, data: JVal): seq<Entry>
    requires data.JObj?
  {
    match IterVulns(show, data)
    case Ok(es) => es
    case Err(_) => []
  }
}
