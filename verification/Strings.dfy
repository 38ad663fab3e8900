/** Python's str.strip and str.find, as the two tools use them. */
module Strings {
  /** What str.strip removes. */
  predicate IsSpace(c: char) {
    var n := c as int;
    || 0x09 <= n <= 0x0d || 0x1c <= n <= 0x20 || n == 0x85 || n == 0xa0 || n == 0x1680
    || 0x2000 <= n <= 0x200a || n == 0x2028 || n == 0x2029 || n == 0x202f || n == 0x205f || n == 0x3000
  }

  function Strip(s: string): (r: string)
    ensures Trimmed(r) && |r| <= |s|
    ensures Trimmed(s) ==> r == s
    decreases |s|
  {
    if s == "" then s
    else if IsSpace(s[0]) then Strip(s[1..])
    else if IsSpace(s[|s| - 1]) then Strip(s[..|s| - 1])
    else s
  }

  predicate Trimmed(s: string) {
    s == "" || (!IsSpace(s[0]) && !IsSpace(s[|s| - 1]))
  }

  predicate AllSpace(s: string) {
    forall i | 0 <= i < |s| :: IsSpace(s[i])
  }

  lemma SpaceBefore(s: string, rest: string, mid: string, after: string)
    requires s != "" && IsSpace(s[0]) && s[1..] == rest + mid + after && AllSpace(rest)
    ensures s == [s[0]] + rest + mid + after && AllSpace([s[0]] + rest)
  {
    assert s == [s[0]] + s[1..];
  }

  lemma SpaceAfter(s: string, before: string, mid: string, rest: string)
    requires s != "" && IsSpace(s[|s| - 1]) && s[..|s| - 1] == before + mid + rest && AllSpace(rest)
    ensures s == before + mid + (rest + [s[|s| - 1]]) && AllSpace(rest + [s[|s| - 1]])
  {
    assert s == s[..|s| - 1] + [s[|s| - 1]];
  }

  /** Stripping takes space off both ends, and nothing else. */
  lemma {:induction false} StripsSpace(s: string) returns (before: string, after: string)
    ensures s == before + Strip(s) + after && AllSpace(before) && AllSpace(after)
    decreases |s|
  {
    if s == "" || Trimmed(s) {
      before, after := "", "";
    } else if IsSpace(s[0]) {
      before, after := StripsSpace(s[1..]);
      SpaceBefore(s, before, Strip(s[1..]), after);
      before := [s[0]] + before;
    } else {
      before, after := StripsSpace(s[..|s| - 1]);
      SpaceAfter(s, before, Strip(s[..|s| - 1]), after);
      after := after + [s[|s| - 1]];
    }
  }

  lemma {:induction false} StripFront(space: string, s: string)
    requires AllSpace(space)
    ensures Strip(space + s) == Strip(s)
  {
    if space == "" {
      assert space + s == s;
    } else {
      assert (space + s)[1..] == space[1..] + s;
      StripFront(space[1..], s);
    }
  }

  lemma {:induction false} StripBack(s: string, space: string)
    requires AllSpace(space) && (s == "" || !IsSpace(s[0]))
    ensures Strip(s + space) == Strip(s)
  {
    if space == "" {
      assert s + space == s;
    } else if s == "" {
      assert s + space == space + "";
      StripFront(space, "");
    } else {
      assert (s + space)[..|s + space| - 1] == s + space[..|space| - 1];
      StripBack(s, space[..|space| - 1]);
    }
  }

  lemma TrimFront(s: string) returns (n: nat)
    ensures n <= |s| && AllSpace(s[..n]) && (n < |s| ==> !IsSpace(s[n]))
  {
    n := 0;
    while n < |s| && IsSpace(s[n])
      invariant n <= |s| && AllSpace(s[..n])
    {
      n := n + 1;
    }
  }

  /** Space around a text makes no difference to what is left of it. */
  lemma StripPadded(before: string, s: string, after: string)
    requires AllSpace(before) && AllSpace(after)
    ensures Strip(before + s + after) == Strip(s)
  {
    var n := TrimFront(s);
    assert s == s[..n] + s[n..];
    assert before + s + after == (before + s[..n]) + (s[n..] + after);
    StripFront(before + s[..n], s[n..] + after);
    StripBack(s[n..], after);
    StripFront(s[..n], s[n..]);
  }

  /** Of the ASCII characters these are space: tab to carriage return, the four separators, and the blank. */
  lemma AsciiSpace(c: char)
    ensures c as int < 128 ==> (IsSpace(c) <==> c == ' ' || '\t' <= c <= '\r' || '\U{1c}' <= c <= '\U{1f}')
  {
  }

  /** The index of the first occurrence of c. */
  function Find(s: string, c: char): (i: nat)
    requires c in s
    ensures i < |s| && s[i] == c && forall j | 0 <= j < i :: s[j] != c
  {
    if s[0] == c then 0 else 1 + Find(s[1..], c)
  }

  lemma {:induction false} FindAfter(s: string, c: char, rest: string)
    requires c !in s
    ensures Find(s + [c] + rest, c) == |s|
  {
    if s != "" {
      assert (s + [c] + rest)[1..] == s[1..] + [c] + rest;
      FindAfter(s[1..], c, rest);
    }
  }
}
