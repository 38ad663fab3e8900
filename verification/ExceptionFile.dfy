/**
 The exception list: a line-by-line reader of a small part of YAML
 (tools/check_pnpm_audit_exceptions.py:12-48).
 */
module ExceptionFile {
  import opened Wrappers
  import opened Strings

  type Record = map<string, string>

  predicate Quoted(v: string, quote: char) {
    v != "" && v[0] == quote && v[|v| - 1] == quote
  }

  /** The text between the quotes; a lone quote is both of its quotes. */
  function Unquote(v: string): string {
    if Quoted(v, '"') || Quoted(v, '\'') then (if |v| == 1 then "" else v[1..|v| - 1]) else v
  }

  /** split_kv */
  function SplitKV(line: string): (string, string)
    requires ':' in line
  {
    var i := Find(line, ':');
    (Strip(line[..i]), Unquote(Strip(line[i + 1..])))
  }

  /** Unpacking `line.split(":", 1)` of a line without a colon. */
  datatype ValueError = NoColon(line: string)

  /** The records that are complete, and the one being read, if any. */
  datatype Reader = Reader(records: seq<Record>, current: Option<Record>)

  predicate Skipped(line: string) {
    line == "" || line[0] == '#' || "version:" <= line || "exceptions:" <= line
  }

  function Flush(st: Reader): seq<Record> {
    if st.current.Some? && st.current.value != map[] then st.records + [st.current.value] else st.records
  }

  /** One turn of the loop of parse_exceptions. */
  function Step(st: Reader, raw: string): Result<Reader, ValueError> {
    var line := Strip(raw);
    if Skipped(line) then Ok(st)
    else if "- " <= line then
      var item := Strip(line[2..]);
      if item == "" then Ok(Reader(Flush(st), Some(map[])))
      else if ':' !in item then Err(NoColon(item))
      else
        var (key, value) := SplitKV(item);
        Ok(Reader(Flush(st), Some(map[key := value])))
    else if st.current.Some? && ':' in line then
      var (key, value) := SplitKV(line);
      Ok(st.(current := Some(st.current.value[key := value])))
    else Ok(st)
  }

  function ReadFrom(st: Reader, lines: seq<string>): Result<Reader, ValueError>
    decreases |lines|
  {
    if lines == [] then Ok(st)
    else
      var next := Step(st, lines[0]);
      if next.Err? then next else ReadFrom(next.value, lines[1..])
  }

  function ParseLines(lines: seq<string>): Result<seq<Record>, ValueError> {
    var st := ReadFrom(Reader([], None), lines);
    if st.Err? then Err(st.error) else Ok(Flush(st.value))
  }

  method ParseExceptions(lines: seq<string>) returns (r: Result<seq<Record>, ValueError>)
    ensures r == ParseLines(lines)
  {
    var exceptions: seq<Record> := [];
    var current: Option<Record> := None;
    var n := 0;
    while n < |lines|
      invariant 0 <= n <= |lines|
      invariant ReadFrom(Reader(exceptions, current), lines[n..]) == ReadFrom(Reader([], None), lines)
    {
      assert lines[n..][0] == lines[n] && lines[n..][1..] == lines[n + 1..];
      var line := Strip(lines[n]);
      n := n + 1;
      if line == "" || line[0] == '#' {
        continue;
      }
      if "version:" <= line || "exceptions:" <= line {
        continue;
      }
      if "- " <= line {
        if current.Some? && current.value != map[] {
          exceptions := exceptions + [current.value];
        }
        current := Some(map[]);
        line := Strip(line[2..]);
        if line != "" {
          if ':' !in line {
            return Err(NoColon(line));
          }
          var (key, value) := SplitKV(line);
          current := Some(map[key := value]);
        }
        continue;
      }
      if current.Some? && ':' in line {
        var (key, value) := SplitKV(line);
        current := Some(current.value[key := value]);
      }
    }
    if current.Some? && current.value != map[] {
      exceptions := exceptions + [current.value];
    }
    r := Ok(exceptions);
  }

  lemma {:induction false} ReadConcat(st: Reader, a: seq<string>, b: seq<string>)
    ensures ReadFrom(st, a + b) == if ReadFrom(st, a).Err? then ReadFrom(st, a) else ReadFrom(ReadFrom(st, a).value, b)
    decreases |a|
  {
    if a == [] {
      assert a + b == b;
    } else {
      assert (a + b)[1..] == a[1..] + b;
      if Step(st, a[0]).Ok? { ReadConcat(Step(st, a[0]).value, a[1..], b); }
    }
  }

  lemma NoEffect(a: seq<string>, raw: string, b: seq<string>)
    requires forall st :: Step(st, raw) == Ok(st)
    ensures ParseLines(a + [raw] + b) == ParseLines(a + b)
  {
    ReadConcat(Reader([], None), a, b);
    ReadConcat(Reader([], None), a, [raw] + b);
    assert a + [raw] + b == a + ([raw] + b);
    assert ([raw] + b)[1..] == b;
  }

  /** Blank lines, comments and the two header lines change nothing, wherever they stand. */
  lemma SkippedLines(a: seq<string>, raw: string, b: seq<string>)
    requires Skipped(Strip(raw))
    ensures ParseLines(a + [raw] + b) == ParseLines(a + b)
  {
    NoEffect(a, raw, b);
  }

  /** A line that opens a record but has no colon. */
  predicate Broken(raw: string) {
    var line := Strip(raw);
    !Skipped(line) && "- " <= line && ':' !in Strip(line[2..])
  }

  /** After "- " something is left of a stripped line. */
  lemma ItemNotBlank(line: string)
    requires Trimmed(line) && "- " <= line
    ensures Strip(line[2..]) != ""
  {
    assert line[1] == ' ';
    if |line| == 2 { assert false; }
    LastKept(line[2..]);
  }

  lemma {:induction false} LastKept(s: string)
    requires s != "" && !IsSpace(s[|s| - 1])
    ensures Strip(s) != ""
    decreases |s|
  {
    if IsSpace(s[0]) { LastKept(s[1..]); }
  }

  /** Reading fails exactly if some line opens a record and has no colon. */
  lemma {:induction false} FailsExactly(st: Reader, lines: seq<string>)
    ensures ReadFrom(st, lines).Err? <==> exists i | 0 <= i < |lines| :: Broken(lines[i])
    decreases |lines|
  {
    if lines != [] {
      var line := Strip(lines[0]);
      if !Skipped(line) && "- " <= line { ItemNotBlank(line); }
      if Step(st, lines[0]).Ok? { FailsExactly(Step(st, lines[0]).value, lines[1..]); }
      assert forall i | 0 < i < |lines| :: lines[i] == lines[1..][i - 1];
    }
  }

  ghost predicate NoneEmpty(st: Reader) {
    (forall i | 0 <= i < |st.records| :: st.records[i] != map[]) && (st.current.Some? ==> st.current.value != map[])
  }

  /** No record is ever empty: a line that is just a dash does not open one, it is ignored. */
  lemma {:induction false} RecordsNotEmpty(st: Reader, lines: seq<string>)
    requires NoneEmpty(st) && ReadFrom(st, lines).Ok?
    ensures NoneEmpty(ReadFrom(st, lines).value)
    decreases |lines|
  {
    if lines != [] {
      StepNotEmpty(st, lines[0]);
      RecordsNotEmpty(Step(st, lines[0]).value, lines[1..]);
    }
  }

  lemma StepNotEmpty(st: Reader, raw: string)
    requires NoneEmpty(st) && Step(st, raw).Ok?
    ensures NoneEmpty(Step(st, raw).value)
    ensures Strip(raw) == "-" ==> Step(st, raw) == Ok(st)
  {
    var line := Strip(raw);
    if !Skipped(line) && "- " <= line {
      ItemNotBlank(line);
      var (key, value) := SplitKV(Strip(line[2..]));
      assert key in map[key := value];
    } else if !Skipped(line) && st.current.Some? && ':' in line {
      var (key, value) := SplitKV(line);
      assert key in st.current.value[key := value];
    }
  }

  // ---------------------------------------------------------------- round trip

  /** How a value stands in the file. */
  datatype Style = Bare | SingleQuotes | DoubleQuotes

  datatype Pair = Pair(key: string, value: string, style: Style)

  function Spelled(p: Pair): string {
    match p.style
    case Bare => p.value
    case SingleQuotes => ['\''] + p.value + ['\'']
    case DoubleQuotes => ['"'] + p.value + ['"']
  }

  /** What follows the colon. */
  function Tail(p: Pair): string {
    if Spelled(p) == "" then "" else [' '] + Spelled(p)
  }

  /** key: value, or key: "value" */
  function PairLine(p: Pair): string {
    p.key + [':'] + Tail(p)
  }

  /** A value that can stand without quotes: no edge spaces, and it does not begin and end with the same quote. */
  predicate CanBeBare(v: string) {
    Trimmed(v) && (v != "" && (v[0] == '"' || v[0] == '\'') ==> v[|v| - 1] != v[0])
  }

  predicate Writable(p: Pair) {
    p.style.Bare? ==> CanBeBare(p.value)
  }

  /** A key that a line can carry: no edge spaces, no colon. */
  predicate IsKey(k: string) {
    Trimmed(k) && ':' !in k
  }

  /** A key that a line can start with inside a record. */
  predicate IsNextKey(k: string) {
    IsKey(k) && !(k != "" && k[0] == '#') && !("- " <= k) && k != "version" && k != "exceptions"
  }

  /** Splitting takes the space around the key and the value away, and then the quotes around the value; a value may
      hold colons. */
  lemma SplitPadded(before: string, k: string, mid: string, rest: string)
    requires IsKey(k) && AllSpace(before) && AllSpace(mid) && ':' !in before && ':' !in mid
    ensures var line := before + k + mid + [':'] + rest;
              ':' in line && SplitKV(line) == (k, Unquote(Strip(rest)))
  {
    var front := before + k + mid;
    var line := front + [':'] + rest;
    assert line[|front|] == ':';
    FindAfter(front, ':', rest);
    assert line[..|front|] == front && line[|front| + 1..] == rest;
    StripPadded(before, k, mid);
  }

  lemma SpelledBack(p: Pair)
    requires Writable(p)
    ensures Trimmed(Spelled(p)) && Unquote(Spelled(p)) == p.value
  {
    if !p.style.Bare? {
      var q := Spelled(p);
      assert q[0] == q[|q| - 1] && q[1..|q| - 1] == p.value;
    }
  }

  lemma TailStrips(p: Pair)
    ensures Strip(Tail(p)) == Strip(Spelled(p))
  {
    if Spelled(p) != "" {
      StripPadded(" ", Spelled(p), "");
      assert " " + Spelled(p) + "" == [' '] + Spelled(p);
    }
  }

  lemma PairTrimmed(p: Pair)
    requires IsKey(p.key) && Trimmed(Spelled(p))
    ensures Trimmed(PairLine(p))
  {
    var line, text := PairLine(p), Spelled(p);
    assert line[|line| - 1] == if text == "" then ':' else text[|text| - 1];
    assert line[0] == if p.key == "" then ':' else p.key[0];
  }

  lemma SplitKey(k: string, rest: string)
    requires IsKey(k)
    ensures ':' in k + [':'] + rest && SplitKV(k + [':'] + rest) == (k, Unquote(Strip(rest)))
  {
    var line := k + [':'] + rest;
    assert line[|k|] == ':';
    FindAfter(k, ':', rest);
    assert line[..|k|] == k && line[|k| + 1..] == rest;
  }

  lemma PairSplits(p: Pair)
    requires IsKey(p.key)
    ensures ':' in PairLine(p) && SplitKV(PairLine(p)) == (p.key, Unquote(Strip(Spelled(p))))
  {
    SplitKey(p.key, Tail(p));
    TailStrips(p);
  }

  /** A quoted value comes back whatever it is, quotes, colons and edge spaces included, and a bare one exactly if it
      can be bare. */
  lemma PairBack(p: Pair)
    requires IsKey(p.key)
    ensures ':' in PairLine(p) && (SplitKV(PairLine(p)) == (p.key, p.value) <==> Writable(p))
  {
    PairSplits(p);
    if Writable(p) { SpelledBack(p); } else { NotBare(p.value); }
  }

  lemma NotBare(v: string)
    requires !CanBeBare(v)
    ensures Unquote(Strip(v)) != v
  {
    if Trimmed(v) {
      assert Quoted(v, v[0]) && |Unquote(v)| < |v|;
    } else {
      StripsShorter(v);
    }
  }

  lemma StripsShorter(s: string)
    requires !Trimmed(s)
    ensures |Strip(s)| < |s|
  {
  }

  /** A quote on its own is read as two. */
  lemma LoneQuote(k: string, quote: char)
    requires IsKey(k) && (quote == '"' || quote == '\'')
    ensures ':' in k + ": " + [quote] && SplitKV(k + ": " + [quote]) == (k, "")
  {
    PairSplits(Pair(k, [quote], Bare));
    assert PairLine(Pair(k, [quote], Bare)) == k + ": " + [quote];
  }

  lemma DashNotSkipped(line: string)
    requires line != "" && line[0] == '-'
    ensures !Skipped(line)
  {
    assert "version:"[0] == 'v' && "exceptions:"[0] == 'e' && line[0] == '-';
  }

  /** A dash before a trimmed text. */
  lemma Dashed(text: string)
    requires Trimmed(text) && text != ""
    ensures var line := "- " + text;
              Strip(line) == line && !Skipped(line) && "- " <= line && line[2..] == text
  {
    var line := "- " + text;
    DashNotSkipped(line);
    assert line[|line| - 1] == text[|text| - 1] && line[0] == '-';
  }

  lemma FirstLineReads(st: Reader, p: Pair)
    requires IsKey(p.key) && Writable(p)
    ensures Step(st, "- " + PairLine(p)) == Ok(Reader(Flush(st), Some(map[p.key := p.value])))
  {
    PairBack(p);
    SpelledBack(p);
    PairTrimmed(p);
    Dashed(PairLine(p));
  }

  lemma NextLineReads(st: Reader, p: Pair)
    requires IsNextKey(p.key) && Writable(p) && st.current.Some?
    ensures Step(st, PairLine(p)) == Ok(st.(current := Some(st.current.value[p.key := p.value])))
  {
    PairBack(p);
    SpelledBack(p);
    PairTrimmed(p);
    NotSkipped(p);
  }

  lemma HeaderIsKey(w: string, k: string, rest: string)
    requires ':' !in w && ':' !in k
    ensures w + [':'] <= k + [':'] + rest <==> w == k
  {
    var line := k + [':'] + rest;
    assert line[|k|] == ':' && line[..|k|] == k;
    if w + [':'] <= line {
      assert (w + [':'])[|w|] == line[|w|] == ':' && line[..|w|] == w;
      assert forall i | 0 <= i < |w| :: line[i] == w[i];
      assert forall i | 0 <= i < |k| :: line[i] == k[i];
    }
  }

  /** The header test looks at the key only, and so does the test for a new record. */
  lemma NotSkipped(p: Pair)
    requires IsKey(p.key)
    ensures Skipped(PairLine(p)) <==> (p.key != "" && p.key[0] == '#') || p.key == "version" || p.key == "exceptions"
    ensures "- " <= PairLine(p) <==> "- " <= p.key
  {
    var line, rest := PairLine(p), Tail(p);
    assert line[|p.key|] == ':' && line[..|p.key|] == p.key;
    HeaderIsKey("version", p.key, rest);
    HeaderIsKey("exceptions", p.key, rest);
    assert "version" + [':'] == "version:" && "exceptions" + [':'] == "exceptions:";
    assert "- " <= line ==> line[0] == '-' && line[1] == ' ';
  }

  /** Inside a record, a key the record does not have yet reads back exactly if a line can start with it. */
  lemma NextLineExact(st: Reader, p: Pair)
    requires IsKey(p.key) && Writable(p) && st.current.Some? && st.current.value != map[]
    requires p.key !in st.current.value
    ensures Step(st, PairLine(p)) == Ok(st.(current := Some(st.current.value[p.key := p.value]))) <==> IsNextKey(p.key)
  {
    if IsNextKey(p.key) {
      NextLineReads(st, p);
    } else {
      SpelledBack(p);
      PairTrimmed(p);
      NotSkipped(p);
      OtherKeys(st, PairLine(p), st.current.value[p.key := p.value]);
      assert p.key in st.current.value[p.key := p.value];
    }
  }

  /** A line that is skipped, or opens a record, does not add to the one being read. */
  lemma OtherKeys(st: Reader, line: string, r: Record)
    requires Trimmed(line) && (Skipped(line) || "- " <= line) && st.current.Some?
    requires st.current.value != map[] && r != st.current.value
    ensures Step(st, line) != Ok(st.(current := Some(r)))
  {
    assert |Flush(st)| == |st.records| + 1;
  }

  function NextLines(ps: seq<Pair>): seq<string> {
    if ps == [] then [] else NextLines(ps[..|ps| - 1]) + [PairLine(ps[|ps| - 1])]
  }

  /** A record as the file writes it. */
  function RenderRecord(ps: seq<Pair>): seq<string> {
    if ps == [] then [] else ["- " + PairLine(ps[0])] + NextLines(ps[1..])
  }

  function RenderAll(rs: seq<seq<Pair>>): seq<string> {
    if rs == [] then [] else RenderAll(rs[..|rs| - 1]) + RenderRecord(rs[|rs| - 1])
  }

  /** The record some pairs make, the last pair of a key counting. */
  function RecordWith(r: Record, ps: seq<Pair>): Record {
    if ps == [] then r else RecordWith(r, ps[..|ps| - 1])[ps[|ps| - 1].key := ps[|ps| - 1].value]
  }

  function RecordOf(ps: seq<Pair>): Record {
    if ps == [] then map[] else RecordWith(map[ps[0].key := ps[0].value], ps[1..])
  }

  function RecordsOf(rs: seq<seq<Pair>>): (ms: seq<Record>)
    ensures |ms| == |rs| && forall i | 0 <= i < |rs| :: ms[i] == RecordOf(rs[i])
  {
    seq(|rs|, i requires 0 <= i < |rs| => RecordOf(rs[i]))
  }

  predicate Renderable(ps: seq<Pair>) {
    && ps != [] && IsKey(ps[0].key) && (forall i | 0 <= i < |ps| :: Writable(ps[i]))
    && forall i | 0 < i < |ps| :: IsNextKey(ps[i].key)
  }

  lemma {:induction false} NextLinesRead(st: Reader, ps: seq<Pair>)
    requires st.current.Some? && st.current.value != map[]
    requires forall i | 0 <= i < |ps| :: IsNextKey(ps[i].key) && Writable(ps[i])
    ensures ReadFrom(st, NextLines(ps)) == Ok(st.(current := Some(RecordWith(st.current.value, ps))))
    ensures RecordWith(st.current.value, ps) != map[]
  {
    if ps != [] {
      var front, last := ps[..|ps| - 1], ps[|ps| - 1];
      NextLinesRead(st, front);
      var mid := st.(current := Some(RecordWith(st.current.value, front)));
      ReadConcat(st, NextLines(front), [PairLine(last)]);
      NextLineReads(mid, last);
      assert last.key in RecordWith(st.current.value, ps);
    }
  }

  lemma RecordReads(st: Reader, ps: seq<Pair>)
    requires Renderable(ps)
    ensures ReadFrom(st, RenderRecord(ps)) == Ok(Reader(Flush(st), Some(RecordOf(ps)))) && RecordOf(ps) != map[]
  {
    FirstLineReads(st, ps[0]);
    var begun := Reader(Flush(st), Some(map[ps[0].key := ps[0].value]));
    assert ps[0].key in begun.current.value;
    NextLinesRead(begun, ps[1..]);
    assert RenderRecord(ps)[1..] == NextLines(ps[1..]);
  }

  /** Reading some lines and then some more. */
  ghost predicate Composes(read: (Reader, seq<string>) -> Result<Reader, ValueError>) {
    && (forall st :: read(st, []) == Ok(st))
    && (forall st, a, b :: read(st, a + b) == if read(st, a).Ok? then read(read(st, a).value, b) else read(st, a))
  }

  lemma Composed(read: (Reader, seq<string>) -> Result<Reader, ValueError>, st: Reader, mid: Reader, a: seq<string>,
                 b: seq<string>)
    requires Composes(read) && read(st, a) == Ok(mid)
    ensures read(st, a + b) == read(mid, b)
  {
  }

  lemma Ends<T>(s: seq<T>)
    requires s != []
    ensures s == s[..|s| - 1] + [s[|s| - 1]]
  {
  }

  /** The lines start a new record, whatever was read before, and make it r. */
  ghost predicate ReadsBack(read: (Reader, seq<string>) -> Result<Reader, ValueError>, lines: seq<string>, r: Record) {
    r != map[] && forall st :: read(st, lines) == Ok(Reader(Flush(st), Some(r)))
  }

  function Flat(parts: seq<seq<string>>): seq<string> {
    if parts == [] then [] else Flat(parts[..|parts| - 1]) + parts[|parts| - 1]
  }

  lemma {:induction false} AllRead(read: (Reader, seq<string>) -> Result<Reader, ValueError>, parts: seq<seq<string>>,
                                   ms: seq<Record>)
    returns (st: Reader)
    requires Composes(read) && |parts| == |ms| && forall i | 0 <= i < |ms| :: ReadsBack(read, parts[i], ms[i])
    ensures read(Reader([], None), Flat(parts)) == Ok(st) && Flush(st) == ms
  {
    if ms == [] {
      st := Reader([], None);
    } else {
      var front, last := ms[..|ms| - 1], ms[|ms| - 1];
      var mid := AllRead(read, parts[..|ms| - 1], front);
      var lines := parts[|ms| - 1];
      assert ReadsBack(read, lines, last);
      Composed(read, Reader([], None), mid, Flat(parts[..|ms| - 1]), lines);
      st := Reader(Flush(mid), Some(last));
      Ends(ms);
    }
  }

  function Rendered(rs: seq<seq<Pair>>): (parts: seq<seq<string>>)
    ensures |parts| == |rs| && forall i | 0 <= i < |rs| :: parts[i] == RenderRecord(rs[i])
  {
    seq(|rs|, i requires 0 <= i < |rs| => RenderRecord(rs[i]))
  }

  lemma {:induction false} RenderedFlat(rs: seq<seq<Pair>>)
    ensures RenderAll(rs) == Flat(Rendered(rs))
  {
    if rs != [] {
      RenderedFlat(rs[..|rs| - 1]);
      assert Rendered(rs)[..|rs| - 1] == Rendered(rs[..|rs| - 1]);
    }
  }

  lemma ReadComposes()
    ensures Composes(ReadFrom)
  {
    forall st, a, b
      ensures ReadFrom(st, a + b) == if ReadFrom(st, a).Ok? then ReadFrom(ReadFrom(st, a).value, b) else ReadFrom(st, a)
    {
      ReadConcat(st, a, b);
    }
  }

  lemma RenderedRecord(ps: seq<Pair>)
    requires Renderable(ps)
    ensures ReadsBack(ReadFrom, RenderRecord(ps), RecordOf(ps))
  {
    RecordReads(Reader([], None), ps);
    forall st ensures ReadFrom(st, RenderRecord(ps)) == Ok(Reader(Flush(st), Some(RecordOf(ps)))) {
      RecordReads(st, ps);
    }
  }

  lemma RendersBack(rs: seq<seq<Pair>>)
    requires forall i | 0 <= i < |rs| :: Renderable(rs[i])
    ensures ParseLines(RenderAll(rs)) == Ok(RecordsOf(rs))
  {
    forall i | 0 <= i < |rs| ensures ReadsBack(ReadFrom, Rendered(rs)[i], RecordsOf(rs)[i]) {
      RenderedRecord(rs[i]);
    }
    ReadComposes();
    RenderedFlat(rs);
    var st := AllRead(ReadFrom, Rendered(rs), RecordsOf(rs));
  }

  // ---------------------------------------------------------------- indentation and stray lines

  /** The line with space around it. */
  ghost predicate Padded(raw: string, line: string) {
    exists n, m | 0 <= n <= m <= |raw| :: AllSpace(raw[..n]) && raw[n..m] == line && AllSpace(raw[m..])
  }

  ghost predicate AllPadded(raws: seq<string>, lines: seq<string>) {
    |raws| == |lines| && forall i | 0 <= i < |lines| :: Padded(raws[i], lines[i])
  }

  lemma PaddedStrips(raw: string, line: string)
    requires Padded(raw, line)
    ensures Strip(raw) == Strip(line)
  {
    var n, m :| 0 <= n <= m <= |raw| && AllSpace(raw[..n]) && raw[n..m] == line && AllSpace(raw[m..]);
    assert raw == raw[..n] + line + raw[m..];
    StripPadded(raw[..n], line, raw[m..]);
  }

  /** Indentation and trailing space of the lines of a file change nothing. */
  lemma {:induction false} IndentFree(st: Reader, raws: seq<string>, lines: seq<string>)
    requires AllPadded(raws, lines)
    ensures ReadFrom(st, raws) == ReadFrom(st, lines)
    decreases |lines|
  {
    if lines != [] {
      PaddedStrips(raws[0], lines[0]);
      if Step(st, lines[0]).Ok? { IndentFree(Step(st, lines[0]).value, raws[1..], lines[1..]); }
    }
  }

  /** A line that neither opens a record nor has a colon changes nothing, wherever it stands. */
  lemma IgnoredLines(a: seq<string>, raw: string, b: seq<string>)
    requires !("- " <= Strip(raw)) && ':' !in Strip(raw)
    ensures ParseLines(a + [raw] + b) == ParseLines(a + b)
  {
    NoEffect(a, raw, b);
  }

  /** Nor does anything in front of the line that opens the first record. */
  lemma {:induction false} BeforeFirst(a: seq<string>, b: seq<string>)
    requires forall i | 0 <= i < |a| :: Skipped(Strip(a[i])) || !("- " <= Strip(a[i]))
    ensures ParseLines(a + b) == ParseLines(b)
  {
    if a == [] {
      assert a + b == b;
    } else {
      assert (a + b)[0] == a[0] && (a + b)[1..] == a[1..] + b;
      BeforeFirst(a[1..], b);
    }
  }

  // ---------------------------------------------------------------- the file as text

  predicate EndsLine(c: char) {
    c == '\n' || c == '\r'
  }

  predicate OneLine(s: string) {
    forall i | 0 <= i < |s| :: !EndsLine(s[i])
  }

  /** The lines of a text; a carriage return and a newline in a row end an extra blank line, which the reader skips. */
  function Lines(text: string): seq<string>
    decreases |text|
  {
    if text == "" then []
    else
      var n := LineEnd(text);
      if n == |text| then [text] else [text[..n]] + Lines(text[n + 1..])
  }

  function LineEnd(text: string): (n: nat)
    ensures n <= |text| && (n < |text| ==> EndsLine(text[n])) && OneLine(text[..n])
  {
    if text == "" || EndsLine(text[0]) then 0 else 1 + LineEnd(text[1..])
  }

  /** How a line ends; only the last can end with the file. */
  datatype Ending = LF | CRLF | CR | EndOfFile

  function Mark(e: Ending): string {
    match e
    case LF => ['\n']
    case CRLF => ['\r', '\n']
    case CR => ['\r']
    case EndOfFile => ""
  }

  predicate WellEnded(ends: seq<Ending>) {
    forall i | 0 <= i < |ends| - 1 :: ends[i] != EndOfFile
  }

  /** The text that has these lines. */
  function Unlines(lines: seq<string>, ends: seq<Ending>): string
    requires |lines| == |ends|
  {
    if lines == [] then "" else lines[0] + Mark(ends[0]) + Unlines(lines[1..], ends[1..])
  }

  lemma {:induction false} LineEndAt(line: string, c: char, rest: string)
    requires OneLine(line) && EndsLine(c)
    ensures LineEnd(line + [c] + rest) == |line|
  {
    if line != "" {
      assert (line + [c] + rest)[1..] == line[1..] + [c] + rest;
      LineEndAt(line[1..], c, rest);
    }
  }

  lemma FirstLine(line: string, c: char, rest: string)
    requires OneLine(line) && EndsLine(c)
    ensures Lines(line + [c] + rest) == [line] + Lines(rest)
  {
    var text := line + [c] + rest;
    LineEndAt(line, c, rest);
    assert text[..|line|] == line && text[|line| + 1..] == rest;
  }

  lemma {:induction false} NoLineEnd(line: string)
    requires OneLine(line)
    ensures LineEnd(line) == |line|
  {
    if line != "" { NoLineEnd(line[1..]); }
  }

  /** The first line of a text, whatever ends it, followed by the rest; a blank line in between is skipped. */
  lemma EndedLine(st: Reader, line: string, end: Ending, rest: string)
    requires OneLine(line) && (end.EndOfFile? ==> rest == "")
    ensures ReadFrom(st, Lines(line + Mark(end) + rest)) ==
            if Step(st, line).Ok? then ReadFrom(Step(st, line).value, Lines(rest)) else Step(st, line)
  {
    match end
    case LF => FirstLine(line, '\n', rest);
    case CR => FirstLine(line, '\r', rest);
    case CRLF =>
      assert line + ['\r', '\n'] + rest == line + ['\r'] + ("" + ['\n'] + rest);
      FirstLine(line, '\r', "" + ['\n'] + rest);
      FirstLine("", '\n', rest);
    case EndOfFile =>
      assert line + "" + rest == line;
      NoLineEnd(line);
  }

  /** Reading a text is reading its lines, whatever ends them. */
  lemma {:induction false} EndingsRead(st: Reader, lines: seq<string>, ends: seq<Ending>)
    requires |lines| == |ends| && WellEnded(ends) && forall i | 0 <= i < |lines| :: OneLine(lines[i])
    ensures ReadFrom(st, Lines(Unlines(lines, ends))) == ReadFrom(st, lines)
    decreases |lines|
  {
    if lines != [] {
      EndedLine(st, lines[0], ends[0], Unlines(lines[1..], ends[1..]));
      if Step(st, lines[0]).Ok? { EndingsRead(Step(st, lines[0]).value, lines[1..], ends[1..]); }
    }
  }

  /** Writing any list of records and reading the file gives the list back, with the lines indented and ended in any way
      and each value bare or in either kind of quotes: keys without edge spaces and colons, which after the first of a
      record do not look like a comment, a new record or a header; any values on one line. */
  lemma FileRoundTrip(rs: seq<seq<Pair>>, raws: seq<string>, ends: seq<Ending>)
    requires forall i | 0 <= i < |rs| :: Renderable(rs[i])
    requires AllPadded(raws, RenderAll(rs)) && forall i | 0 <= i < |raws| :: OneLine(raws[i])
    requires |ends| == |raws| && WellEnded(ends)
    ensures ParseLines(Lines(Unlines(raws, ends))) == Ok(RecordsOf(rs))
  {
    EndingsRead(Reader([], None), raws, ends);
    IndentFree(Reader([], None), raws, RenderAll(rs));
    RendersBack(rs);
  }
}
