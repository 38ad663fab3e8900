/**
 The verdict of the audit gate over the fields of the report and of the exception file themselves
 (tools/check_pnpm_audit_exceptions.py:113-250).
 */
module AuditVerdict {
  import opened Wrappers
  import opened AuditReport
  import opened ExceptionFile
  import opened AuditGate

  /** str(v) */
  function AsText(t: Text, v: JVal): string {
    match v
    case JStr(s) => s
    case _ => t.show(v)
  }

  /** All five fields are set, the date parses, and neither the package nor the advisory is blank. */
  ghost predicate Valid(t: Text, exc: Record) {
    && (forall field | field in {"package", "advisory", "severity", "mitigation", "expires_on"} ::
          field in exc && exc[field] != "")
    && t.date(exc["expires_on"]).Some? && t.strip(exc["package"]) != "" && t.lower(t.strip(exc["advisory"])) != ""
  }

  /** The exceptions are about the same thing: packages are compared exactly, advisories without regard to case. */
  ghost predicate SameSubject(t: Text, a: Record, b: Record)
    requires Valid(t, a) && Valid(t, b)
  {
    && t.strip(a["package"]) == t.strip(b["package"])
    && t.lower(t.strip(a["advisory"])) == t.lower(t.strip(b["advisory"]))
  }

  /** The severity of an entry as it is compared. */
  function Level(t: Text, e: Entry): string {
    t.lower(t.strip(if e.severity.JStr? then e.severity.s else ""))
  }

  /** The gate looks at high and critical entries with a name. */
  ghost predicate Counts(t: Text, e: Entry) {
    (Level(t, e) == "high" || Level(t, e) == "critical") && Truthy(e.name)
  }

  /** The advisory of an entry as it is compared. */
  function AdvisoryText(t: Text, e: Entry): string {
    if e.advisory == JNull then "" else t.lower(t.strip(AsText(t, e.advisory)))
  }

  ghost predicate SameEntry(t: Text, d: Entry, e: Entry) {
    t.strip(AsText(t, d.name)) == t.strip(AsText(t, e.name)) && AdvisoryText(t, d) == AdvisoryText(t, e)
  }

  /** The exception is about the entry, names its severity, and has not expired: its date is the last day it counts. */
  ghost predicate Excuses(t: Text, exc: Record, e: Entry, today: int)
    requires Valid(t, exc)
  {
    && t.strip(exc["package"]) == t.strip(AsText(t, e.name)) && t.lower(t.strip(exc["advisory"])) == AdvisoryText(t, e)
    && (t.lower(t.strip(exc["severity"])) == "" || t.lower(t.strip(exc["severity"])) == Level(t, e))
    && today <= t.date(exc["expires_on"]).value
  }

  /** Entry i has an advisory and, unless an entry before it is about the same thing, an exception. */
  ghost predicate Handled(t: Text, es: seq<Entry>, excs: seq<Record>, today: int, i: nat)
    requires i < |es| && forall exc | exc in excs :: Valid(t, exc)
  {
    Counts(t, es[i]) ==>
      && AdvisoryText(t, es[i]) != ""
      && ((exists j | 0 <= j < i :: Counts(t, es[j]) && SameEntry(t, es[j], es[i]))
          || exists exc | exc in excs :: Excuses(t, exc, es[i], today))
  }

  /** The audit ran without an error, and has one of the two sections as an object. */
  ghost predicate Usable(audit: JVal) {
    && audit.JObj? && !Truthy(Get(audit, "error")) && !Truthy(Get(audit, "errors"))
    && (Get(audit, "advisories").JObj? || Get(audit, "vulnerabilities").JObj?)
  }

  ghost predicate AllValid(t: Text, excs: seq<Record>) {
    forall exc | exc in excs :: Valid(t, exc)
  }

  ghost predicate Apart(t: Text, excs: seq<Record>)
    requires AllValid(t, excs)
  {
    forall i, j | 0 <= i < j < |excs| :: !SameSubject(t, excs[i], excs[j])
  }

  lemma ValidExact(t: Text, exc: Record)
    ensures Valid(t, exc) <==> WellFormed(t, exc)
  {
    var fields := {"package", "advisory", "severity", "mitigation", "expires_on"};
    assert HasFields(exc) <==> forall field | field in fields :: field in exc && exc[field] != "" by {
      FieldsExact(exc);
    }
  }

  lemma FieldsExact(exc: Record)
    ensures HasFields(exc) <==>
            forall f | f in {"package", "advisory", "severity", "mitigation", "expires_on"} :: f in exc && exc[f] != ""
  {
    assert REQUIRED_FIELDS[0] == "package" && REQUIRED_FIELDS[1] == "advisory" && REQUIRED_FIELDS[2] == "severity";
    assert REQUIRED_FIELDS[3] == "mitigation" && REQUIRED_FIELDS[4] == "expires_on" && |REQUIRED_FIELDS| == 5;
    if forall f | f in {"package", "advisory", "severity", "mitigation", "expires_on"} :: f in exc && exc[f] != "" {
      forall i | 0 <= i < |REQUIRED_FIELDS| ensures REQUIRED_FIELDS[i] in exc && exc[REQUIRED_FIELDS[i]] != "" {
      }
    }
  }

  lemma SubjectExact(t: Text, a: Record, b: Record)
    requires Valid(t, a) && Valid(t, b)
    ensures SameSubject(t, a, b) <==> ExceptionKey(t, a) == ExceptionKey(t, b)
  {
  }

  lemma CountsExact(t: Text, e: Entry)
    requires SeverityReads(e)
    ensures Level(t, e) == Severity(t, e) && (Counts(t, e) <==> Relevant(t, e))
    ensures Counts(t, e) ==> EntryKey(t, e) == (t.strip(AsText(t, e.name)), AdvisoryText(t, e))
  {
  }

  lemma ExcusesExact(t: Text, exc: Record, e: Entry, today: int)
    requires Valid(t, exc) && WellFormed(t, exc) && SeverityReads(e) && Counts(t, e)
    ensures var p := PermitOf(t, exc);
              Excuses(t, exc, e, today) <==>
              p.key == EntryKey(t, e) && (p.severity == "" || p.severity == Severity(t, e)) && today <= p.expires
  {
    CountsExact(t, e);
  }

  lemma ExcusedExact(t: Text, excs: seq<Record>, e: Entry, today: int)
    requires AllValid(t, excs) && SeverityReads(e) && Counts(t, e)
    ensures Excused(t, e, excs, today) <==> exists exc | exc in excs :: Excuses(t, exc, e, today)
  {
    forall exc | exc in excs
      ensures WellFormed(t, exc)
      ensures var p := PermitOf(t, exc);
                Excuses(t, exc, e, today) <==>
                p.key == EntryKey(t, e) && (p.severity == "" || p.severity == Severity(t, e)) && today <= p.expires
    {
      ValidExact(t, exc);
      ExcusesExact(t, exc, e, today);
    }
    if Excused(t, e, excs, today) {
      var p :| Permits(t, excs, p) && p.key == EntryKey(t, e)
        && (p.severity == "" || p.severity == Severity(t, e)) && today <= p.expires;
      var i :| 0 <= i < |excs| && WellFormed(t, excs[i]) && PermitOf(t, excs[i]) == p;
      assert excs[i] in excs && Excuses(t, excs[i], e, today);
    }
    if exc :| exc in excs && Excuses(t, exc, e, today) {
      var i :| 0 <= i < |excs| && excs[i] == exc;
      assert Permits(t, excs, PermitOf(t, exc));
    }
  }

  lemma HandledExact(t: Text, es: seq<Entry>, excs: seq<Record>, today: int, i: nat)
    requires i < |es| && AllValid(t, excs) && SeveritiesRead(es)
    ensures Handled(t, es, excs, today, i) <==> Settled(t, es, excs, today, i)
  {
    CountsExact(t, es[i]);
    if Counts(t, es[i]) {
      ExcusedExact(t, excs, es[i], today);
      forall j | 0 <= j < i
        ensures Counts(t, es[j]) && SameEntry(t, es[j], es[i]) <==>
                Relevant(t, es[j]) && EntryKey(t, es[j]) == EntryKey(t, es[i])
      {
        CountsExact(t, es[j]);
      }
    }
  }

  lemma ApartExact(t: Text, excs: seq<Record>)
    ensures Unambiguous(t, excs) <==> AllValid(t, excs) && Apart(t, excs)
  {
    forall i | 0 <= i < |excs| ensures Valid(t, excs[i]) <==> WellFormed(t, excs[i]) {
      ValidExact(t, excs[i]);
    }
    if AllValid(t, excs) {
      forall i, j | 0 <= i < j < |excs|
        ensures SameSubject(t, excs[i], excs[j]) <==> ExceptionKey(t, excs[i]) == ExceptionKey(t, excs[j])
      {
        SubjectExact(t, excs[i], excs[j]);
      }
    }
  }

  /** The gate accepts if and only if the report is usable and can be read, no line of the file is broken, the
      exceptions are valid and about different things, every severity is a text or false, and every entry that counts
      is handled. */
  lemma AcceptsExactly(t: Text, audit: JVal, lines: seq<string>, today: int)
    ensures Accepts(t, audit, lines, today) <==>
            && Usable(audit) && Readable(audit)
            && ParseLines(lines).Ok? && AllValid(t, ParseLines(lines).value) && Apart(t, ParseLines(lines).value)
            && (forall e | e in Yielded(Str(t), audit) :: e.severity.JStr? || !Truthy(e.severity))
            && forall i | 0 <= i < |Yielded(Str(t), audit)| ::
                 Handled(t, Yielded(Str(t), audit), ParseLines(lines).value, today, i)
  {
    FailsExactly(Reader([], None), lines);
    if ParseLines(lines).Ok? && Usable(audit) {
      var excs, es := ParseLines(lines).value, Yielded(Str(t), audit);
      ApartExact(t, excs);
      assert SeveritiesRead(es) <==> forall e | e in es :: e.severity.JStr? || !Truthy(e.severity);
      if AllValid(t, excs) && SeveritiesRead(es) {
        forall i | 0 <= i < |es| ensures Handled(t, es, excs, today, i) <==> Settled(t, es, excs, today, i) {
          HandledExact(t, es, excs, today, i);
        }
      }
    }
  }

  /** The function that turns the number of an advisory into a text keeps texts as they are. */
  lemma StrExact(t: Text, v: JVal)
    ensures Str(t)(v) == AsText(t, v)
  {
  }

  /** What is accepted on some day was accepted on every day before. */
  lemma AcceptedBefore(t: Text, audit: JVal, lines: seq<string>, today: int, day: int)
    requires Accepts(t, audit, lines, today) && day <= today
    ensures Accepts(t, audit, lines, day)
  {
    var es, excs := Yielded(Str(t), audit), Records(lines);
    forall i | 0 <= i < |es| ensures Settled(t, es, excs, day, i) {
      assert Settled(t, es, excs, today, i);
    }
  }
}
