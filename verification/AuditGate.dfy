/**
 The decision of the audit gate: a report passes only if every high or critical vulnerability it names is covered by an
 unexpired exception (tools/check_pnpm_audit_exceptions.py:113-250).
 */
module AuditGate {
  import opened Wrappers
  import opened AuditReport
  import opened ExceptionFile

  /** The string functions the gate calls; nothing is assumed about them. */
  datatype Text = Text(strip: string -> string, lower: string -> string, show: JVal -> string,
                       date: string -> Option<int>)

  /** (severity or "").strip().lower(), which a true value that is not a string does not have. */
  function NormalizeSeverity(t: Text, v: JVal): Result<string, Crash> {
    if !Truthy(v) then Ok(t.lower(t.strip("")))
    else if v.JStr? then Ok(t.lower(t.strip(v.s)))
    else Err(Crash)
  }

  function Shown(t: Text, v: JVal): string {
    if v.JStr? then v.s else t.show(v)
  }

  function NormalizePackage(t: Text, v: JVal): string {
    if v.JNull? then "" else t.strip(Shown(t, v))
  }

  function NormalizeAdvisory(t: Text, v: JVal): string {
    if v.JNull? then "" else t.lower(t.strip(Shown(t, v)))
  }

  predicate High(sev: string) {
    sev == "high" || sev == "critical"
  }

  // ---------------------------------------------------------------- exceptions

  type Exception = Record

  const REQUIRED_FIELDS := ["package", "advisory", "severity", "mitigation", "expires_on"]

  predicate HasFields(exc: Exception) {
    forall i | 0 <= i < |REQUIRED_FIELDS| :: REQUIRED_FIELDS[i] in exc && exc[REQUIRED_FIELDS[i]] != ""
  }

  type Key = (string, string)

  /** exc.get(field) */
  function FieldOf(exc: Exception, field: string): JVal {
    if field in exc then JStr(exc[field]) else JNull
  }

  function ExceptionKey(t: Text, exc: Exception): Key {
    (NormalizePackage(t, FieldOf(exc, "package")), NormalizeAdvisory(t, FieldOf(exc, "advisory")))
  }

  function Expiry(t: Text, exc: Exception): Option<int> {
    t.date(Shown(t, FieldOf(exc, "expires_on")))
  }

  /** What the gate keeps of an exception. */
  datatype Permit = Permit(key: Key, severity: string, expires: int)

  /** All fields set, a date that parses, and a package and an advisory that are not blank. */
  predicate WellFormed(t: Text, exc: Exception) {
    HasFields(exc) && Expiry(t, exc).Some? && ExceptionKey(t, exc).0 != "" && ExceptionKey(t, exc).1 != ""
  }

  function PermitOf(t: Text, exc: Exception): Permit
    requires WellFormed(t, exc)
  {
    Permit(ExceptionKey(t, exc), t.lower(t.strip(Shown(t, FieldOf(exc, "severity")))), Expiry(t, exc).value)
  }

  ghost predicate DistinctKeys(t: Text, excs: seq<Exception>) {
    forall i, j | 0 <= i < j < |excs| :: ExceptionKey(t, excs[i]) != ExceptionKey(t, excs[j])
  }

  /** Every exception is well formed, and no two are about the same package and advisory. */
  ghost predicate Unambiguous(t: Text, excs: seq<Exception>) {
    (forall i | 0 <= i < |excs| :: WellFormed(t, excs[i])) && DistinctKeys(t, excs)
  }

  /** Some exception permits this. */
  ghost predicate Permits(t: Text, excs: seq<Exception>, p: Permit) {
    exists i :: 0 <= i < |excs| && WellFormed(t, excs[i]) && PermitOf(t, excs[i]) == p
  }

  datatype Problem =
    | MissingFields(exc: Exception)
    | InvalidDate(exc: Exception)
    | BlankKey(exc: Exception)
    | Duplicate(exc: Exception)
    | NoAdvisory(name: JVal)
    | SeverityMismatch(name: JVal, expected: string, got: string)
    | MissingException(name: JVal, advisory: JVal)
    | Expired(name: JVal, advisory: JVal)

  /** What is wrong with one exception, given the keys before it. */
  function ExceptionProblem(t: Text, exc: Exception, keys: set<Key>): Option<Problem> {
    if !HasFields(exc) then Some(MissingFields(exc))
    else if Expiry(t, exc).None? then Some(InvalidDate(exc))
    else if ExceptionKey(t, exc).0 == "" || ExceptionKey(t, exc).1 == "" then Some(BlankKey(exc))
    else if ExceptionKey(t, exc) in keys then Some(Duplicate(exc))
    else None
  }

  /** The index that main builds: no errors exactly if the list is unambiguous, and then it holds every exception. */
  method IndexExceptions(t: Text, excs: seq<Exception>) returns (index: map<Key, Permit>, errors: seq<Problem>)
    ensures errors == [] <==> Unambiguous(t, excs)
    ensures errors == [] ==> Holding(t, excs, index)
  {
    index, errors := map[], [];
    var i := 0;
    while i < |excs|
      invariant 0 <= i <= |excs|
      invariant errors == [] <==> Unambiguous(t, excs[..i])
      invariant errors == [] ==> Holding(t, excs[..i], index)
    {
      var problem := ExceptionProblem(t, excs[i], index.Keys);
      OneMoreException(t, excs[..i], excs[i], index);
      assert excs[..i + 1] == excs[..i] + [excs[i]];
      if problem.Some? {
        errors := errors + [problem.value];
      } else {
        var p := PermitOf(t, excs[i]);
        index := index[p.key := p];
      }
      i := i + 1;
    }
    assert excs[..i] == excs;
  }

  /** The index holds exactly what the exceptions permit. */
  ghost predicate Holding(t: Text, excs: seq<Exception>, index: map<Key, Permit>) {
    && (forall k | k in index :: index[k].key == k)
    && forall p: Permit :: p.key in index && index[p.key] == p <==> Permits(t, excs, p)
  }

  lemma OneMoreException(t: Text, excs: seq<Exception>, exc: Exception, index: map<Key, Permit>)
    requires Unambiguous(t, excs) ==> Holding(t, excs, index)
    ensures var more, problem := excs + [exc], ExceptionProblem(t, exc, index.Keys);
              && (Unambiguous(t, more) ==> Unambiguous(t, excs))
              && (Unambiguous(t, excs) ==> (Unambiguous(t, more) <==> problem.None?))
              && (Unambiguous(t, more) ==> Holding(t, more, index[PermitOf(t, exc).key := PermitOf(t, exc)]))
  {
    UnambiguousMore(t, excs, exc);
    if Unambiguous(t, excs) && WellFormed(t, exc) {
      KeysIndexed(t, excs, index, ExceptionKey(t, exc));
      if ExceptionKey(t, exc) !in index { HoldingMore(t, excs, exc, index); }
    }
  }

  lemma UnambiguousMore(t: Text, excs: seq<Exception>, exc: Exception)
    ensures Unambiguous(t, excs + [exc]) <==>
            && Unambiguous(t, excs) && WellFormed(t, exc)
            && forall i | 0 <= i < |excs| :: ExceptionKey(t, excs[i]) != ExceptionKey(t, exc)
  {
    var more := excs + [exc];
    assert more[|excs|] == exc;
    assert forall i | 0 <= i < |excs| :: more[i] == excs[i];
  }

  lemma HoldingMore(t: Text, excs: seq<Exception>, exc: Exception, index: map<Key, Permit>)
    requires Holding(t, excs, index) && WellFormed(t, exc) && ExceptionKey(t, exc) !in index
    ensures Holding(t, excs + [exc], index[PermitOf(t, exc).key := PermitOf(t, exc)])
  {
    var own := PermitOf(t, exc);
    forall p: Permit
      ensures p.key in index[own.key := own] && index[own.key := own][p.key] == p <==> Permits(t, excs + [exc], p)
    {
      PermitsMore(t, excs, exc, p);
      IndexMore(index, own, p, Permits(t, excs, p));
    }
  }

  lemma IndexMore(index: map<Key, Permit>, own: Permit, p: Permit, was: bool)
    requires own.key !in index && (p.key in index && index[p.key] == p <==> was)
    ensures p.key in index[own.key := own] && index[own.key := own][p.key] == p <==> was || p == own
  {
  }

  lemma PermitsMore(t: Text, excs: seq<Exception>, exc: Exception, p: Permit)
    requires WellFormed(t, exc)
    ensures Permits(t, excs + [exc], p) <==> Permits(t, excs, p) || p == PermitOf(t, exc)
  {
    var more := excs + [exc];
    if Permits(t, excs, p) {
      var i :| 0 <= i < |excs| && WellFormed(t, excs[i]) && PermitOf(t, excs[i]) == p;
      assert more[i] == excs[i];
    }
    if p == PermitOf(t, exc) { assert more[|excs|] == exc; }
  }

  lemma KeysIndexed(t: Text, excs: seq<Exception>, index: map<Key, Permit>, k: Key)
    requires Unambiguous(t, excs) && Holding(t, excs, index)
    ensures k in index <==> exists i :: 0 <= i < |excs| && ExceptionKey(t, excs[i]) == k
  {
    if k in index {
      assert Permits(t, excs, index[k]);
      var i :| 0 <= i < |excs| && WellFormed(t, excs[i]) && PermitOf(t, excs[i]) == index[k];
      assert ExceptionKey(t, excs[i]) == k;
    }
    if i :| 0 <= i < |excs| && ExceptionKey(t, excs[i]) == k {
      assert Permits(t, excs, PermitOf(t, excs[i]));
    }
  }

  // ---------------------------------------------------------------- vulnerabilities

  function Severity(t: Text, e: Entry): string {
    match NormalizeSeverity(t, e.severity)
    case Ok(sev) => sev
    case Err(_) => ""
  }

  function EntryKey(t: Text, e: Entry): Key {
    (NormalizePackage(t, e.name), NormalizeAdvisory(t, e.advisory))
  }

  /** The entries the gate is about. */
  predicate Relevant(t: Text, e: Entry) {
    High(Severity(t, e)) && Truthy(e.name)
  }

  /** Some exception for the entry's package and advisory has not expired, and names no severity or the entry's. */
  ghost predicate Excused(t: Text, e: Entry, excs: seq<Exception>, today: int) {
    exists p: Permit ::
      && Permits(t, excs, p) && p.key == EntryKey(t, e)
      && (p.severity == "" || p.severity == Severity(t, e)) && today <= p.expires
  }

  /** No relevant entry before the i-th is about the same package and advisory. */
  ghost predicate First(t: Text, entries: seq<Entry>, i: nat)
    requires i < |entries|
  {
    forall j | 0 <= j < i :: Relevant(t, entries[j]) ==> EntryKey(t, entries[j]) != EntryKey(t, entries[i])
  }

  ghost predicate Settled(t: Text, entries: seq<Entry>, excs: seq<Exception>, today: int, i: nat)
    requires i < |entries|
  {
    Relevant(t, entries[i]) ==>
      EntryKey(t, entries[i]).1 != "" && (First(t, entries, i) ==> Excused(t, entries[i], excs, today))
  }

  /** Every relevant entry has an advisory, and the first of each package and advisory is excused. */
  ghost predicate Covered(t: Text, entries: seq<Entry>, excs: seq<Exception>, today: int) {
    CoveredUpTo(t, entries, excs, today, |entries|)
  }

  ghost predicate CoveredUpTo(t: Text, entries: seq<Entry>, excs: seq<Exception>, today: int, n: nat)
    requires n <= |entries|
  {
    forall i | 0 <= i < n :: Settled(t, entries, excs, today, i)
  }

  /** The severity is a string, or false. */
  predicate SeverityReads(e: Entry) {
    e.severity.JStr? || !Truthy(e.severity)
  }

  predicate SeveritiesRead(entries: seq<Entry>) {
    forall i | 0 <= i < |entries| :: SeverityReads(entries[i])
  }

  /** The keys of the relevant entries among the first n. */
  ghost predicate Seen(t: Text, entries: seq<Entry>, n: nat, seen: set<Key>)
    requires n <= |entries|
  {
    forall k :: k in seen <==>
      k.1 != "" && exists j :: 0 <= j < n && Relevant(t, entries[j]) && EntryKey(t, entries[j]) == k
  }

  /** What is wrong with an entry that has not been seen before. */
  function EntryProblems(t: Text, e: Entry, index: map<Key, Permit>, today: int): seq<Problem> {
    var key := EntryKey(t, e);
    if key !in index then [MissingException(e.name, e.advisory)]
    else
      (if index[key].severity != "" && index[key].severity != Severity(t, e)
       then [SeverityMismatch(e.name, Severity(t, e), index[key].severity)] else []) +
      (if index[key].expires < today then [Expired(e.name, e.advisory)] else [])
  }

  lemma ProblemsExact(t: Text, e: Entry, excs: seq<Exception>, index: map<Key, Permit>, today: int)
    requires Holding(t, excs, index)
    ensures EntryProblems(t, e, index, today) == [] <==> Excused(t, e, excs, today)
  {
    var key := EntryKey(t, e);
    if key in index { assert Permits(t, excs, index[key]); }
  }

  lemma SeenMore(t: Text, entries: seq<Entry>, n: nat, seen: set<Key>)
    requires n < |entries| && Seen(t, entries, n, seen)
    ensures var key := EntryKey(t, entries[n]);
              Seen(t, entries, n + 1, if Relevant(t, entries[n]) && key.1 != "" then seen + {key} else seen)
    ensures EntryKey(t, entries[n]).1 != "" ==> (First(t, entries, n) <==> EntryKey(t, entries[n]) !in seen)
  {
  }

  /** One entry: nothing is reported exactly if it is settled. */
  method CheckEntry(t: Text, entries: seq<Entry>, i: nat, index: map<Key, Permit>, today: int, seen: set<Key>,
                    ghost excs: seq<Exception>)
    returns (found: seq<Problem>, seen': set<Key>)
    requires i < |entries| && Seen(t, entries, i, seen)
    requires Holding(t, excs, index)
    ensures Seen(t, entries, i + 1, seen')
    ensures found == [] <==> Settled(t, entries, excs, today, i)
  {
    var e := entries[i];
    SeenMore(t, entries, i, seen);
    found, seen' := [], seen;
    if High(Severity(t, e)) && Truthy(e.name) {
      var key := EntryKey(t, e);
      if key.1 == "" {
        found := [NoAdvisory(e.name)];
      } else if key !in seen {
        seen' := seen + {key};
        ProblemsExact(t, e, excs, index, today);
        found := EntryProblems(t, e, index, today);
      } else {
        assert seen + {key} == seen;
      }
    }
  }

  /** The last loop of main. */
  method CheckEntries(t: Text, entries: seq<Entry>, index: map<Key, Permit>, today: int, ghost excs: seq<Exception>)
    returns (r: Result<seq<Problem>, Crash>)
    requires Holding(t, excs, index)
    ensures r.Ok? <==> SeveritiesRead(entries)
    ensures r.Ok? ==> (r.value == [] <==> Covered(t, entries, excs, today))
  {
    var seen: set<Key> := {};
    var problems: seq<Problem> := [];
    var i := 0;
    while i < |entries|
      invariant 0 <= i <= |entries|
      invariant forall j | 0 <= j < i :: SeverityReads(entries[j])
      invariant Seen(t, entries, i, seen)
      invariant problems == [] <==> CoveredUpTo(t, entries, excs, today, i)
    {
      if NormalizeSeverity(t, entries[i].severity).Err? {
        return Err(Crash);
      }
      var found;
      found, seen := CheckEntry(t, entries, i, index, today, seen, excs);
      problems := problems + found;
      i := i + 1;
    }
    r := Ok(problems);
  }

  // ---------------------------------------------------------------- the gate

  /** str() */
  function Str(t: Text): JVal -> string {
    v => Shown(t, v)
  }

  /** An audit that ran, with a section the gate knows. */
  predicate Supported(audit: JVal) {
    && audit.JObj? && !Truthy(Get(audit, "error")) && !Truthy(Get(audit, "errors"))
    && (Get(audit, "advisories").JObj? || Get(audit, "vulnerabilities").JObj?)
  }

  /** The exceptions in the file, where it can be read. */
  function Records(lines: seq<string>): seq<Exception> {
    match ParseLines(lines)
    case Ok(rs) => rs
    case Err(_) => []
  }

  /** What it takes to pass: a supported report that can be gone through, a file without broken lines, exceptions that
      are well formed and about different things, and every vulnerability that counts covered by one. */
  ghost predicate Accepts(t: Text, audit: JVal, lines: seq<string>, today: int) {
    && Supported(audit)
    && (forall i | 0 <= i < |lines| :: !Broken(lines[i])) && Unambiguous(t, Records(lines))
    && Readable(audit) && SeveritiesRead(Yielded(Str(t), audit))
    && Covered(t, Yielded(Str(t), audit), Records(lines), today)
  }

  /** main: exit code 0 exactly if the gate accepts; an exception ends the program with 1, as an error does. */
  method Gate(t: Text, audit: JVal, lines: seq<string>, today: int) returns (code: int)
    ensures code == if Accepts(t, audit, lines, today) then 0 else 1
  {
    if !Supported(audit) {
      return 1;
    }
    FailsExactly(Reader([], None), lines);
    var parsed := ParseExceptions(lines);
    if parsed.Err? {
      return 1;
    }
    var index, errors := IndexExceptions(t, parsed.value);
    ReadsExactly(Str(t), audit);
    var entries := YieldAll(Str(t), audit);
    if entries.Err? {
      return 1;
    }
    if errors != [] {
      return 1;
    }
    var problems := CheckEntries(t, entries.value, index, today, parsed.value);
    if problems.Err? {
      return 1;
    }
    code := if problems.value == [] then 0 else 1;
  }

  /** A report with a `via` item that has only a number is never accepted, whatever the exceptions. */
  lemma NumericSourceRejected(t: Text, audit: JVal, lines: seq<string>, today: int, i: nat, k: nat)
    requires audit.JObj? && i < |Section(Get(audit, "vulnerabilities"))|
    requires var vuln := Section(Get(audit, "vulnerabilities"))[i].1;
               vuln.JObj? && k < |ViaItems(vuln)| && OnlyNumbered(ViaItems(vuln)[k])
    ensures !Accepts(t, audit, lines, today)
  {
    NumericSourceCrashes(Str(t), audit, i, k);
    ReadsExactly(Str(t), audit);
  }
}
