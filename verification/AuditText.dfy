/**
 The string operations of the audit tool: Python's `strip`, `startswith`, `split(":", 1)` and the
 iteration over the lines of a text file.
 */
module AuditText {
  import opened Collections

  /** What `str.isspace` accepts. */
  predicate IsSpace(c: char) {
    var n := c as int;
    || 0x09 <= n <= 0x0d || 0x1c <= n <= 0x20 || n == 0x85 || n == 0xa0 || n == 0x1680 || 0x2000 <= n <= 0x200a
    || n == 0x2028 || n == 0x2029 || n == 0x202f || n == 0x205f || n == 0x3000
  }

  predicate IsNewline(c: char) {
    c == '\n' || c == '\r'
  }

  predicate OneLine(s: string) {
    forall i :: 0 <= i < |s| ==> !IsNewline(s[i])
  }

  function StripLeft(s: string): (r: string)
    ensures r == "" || !IsSpace(r[0])
  {
    if s != "" && IsSpace(s[0]) then StripLeft(s[1..]) else s
  }

  function StripRight(s: string): (r: string)
    ensures r == "" || !IsSpace(r[|r| - 1])
  {
    if s != "" && IsSpace(s[|s| - 1]) then StripRight(s[..|s| - 1]) else s
  }

  function Strip(s: string): (r: string) {
    StripRight(StripLeft(s))
  }

  lemma {:induction false} StripRightKeeps(s: string, i: nat)
    requires i < |s| && !IsSpace(s[i])
    ensures i < |StripRight(s)| && StripRight(s) <= s
    decreases |s|
  {
    if IsSpace(s[|s| - 1]) { StripRightKeeps(s[..|s| - 1], i); }
  }

  /** A stripped text neither starts nor ends with space. */
  lemma StripEdges(s: string)
    ensures Strip(s) != "" ==> !IsSpace(Strip(s)[0]) && !IsSpace(Strip(s)[|Strip(s)| - 1])
  {
    var l := StripLeft(s);
    if l != "" { StripRightKeeps(l, 0); }
  }

  /** Only space is stripped to nothing. */
  lemma {:induction false} StripBlank(s: string, i: nat)
    requires i < |s| && !IsSpace(s[i])
    ensures Strip(s) != ""
    decreases |s|
  {
    if IsSpace(s[0]) {
      StripBlank(s[1..], i - 1);
    } else {
      StripRightKeeps(s, i);
    }
  }

  lemma {:induction false} StripLeftPad(left: string, rest: string)
    requires (forall i :: 0 <= i < |left| ==> IsSpace(left[i])) && (rest == "" || !IsSpace(rest[0]))
    ensures StripLeft(left + rest) == rest
  {
    if left == "" {
      assert left + rest == rest;
    } else {
      StripLeftPad(left[1..], rest);
      assert (left + rest)[1..] == left[1..] + rest;
    }
  }

  lemma {:induction false} StripRightPad(rest: string, right: string)
    requires (forall i :: 0 <= i < |right| ==> IsSpace(right[i])) && (rest == "" || !IsSpace(rest[|rest| - 1]))
    ensures StripRight(rest + right) == rest
  {
    if right == "" {
      assert rest + right == rest;
    } else {
      var s := rest + right;
      StripRightPad(rest, right[..|right| - 1]);
      assert s[..|s| - 1] == rest + right[..|right| - 1] && s[|s| - 1] == right[|right| - 1];
    }
  }

  /** Stripping removes exactly the space at both ends. */
  lemma StripCore(left: string, core: string, right: string)
    requires core != "" && !IsSpace(core[0]) && !IsSpace(core[|core| - 1])
    requires (forall i :: 0 <= i < |left| ==> IsSpace(left[i])) && forall i :: 0 <= i < |right| ==> IsSpace(right[i])
    ensures Strip(left + core + right) == core
  {
    StripLeftPad(left, core + right);
    assert left + core + right == left + (core + right);
    StripRightPad(core, right);
  }

  predicate StartsWith(s: string, p: string) {
    p <= s
  }

  predicate EndsWith(s: string, c: char) {
    s != "" && s[|s| - 1] == c
  }

  /** The position of the first colon; the length when there is none. */
  function ColonAt(s: string): (i: nat)
    ensures i <= |s| && (forall j :: 0 <= j < i ==> s[j] != ':') && (i < |s| ==> s[i] == ':')
  {
    if s == "" || s[0] == ':' then 0 else 1 + ColonAt(s[1..])
  }

  lemma {:induction false} ColonAfter(key: string, rest: string)
    requires ':' !in key
    ensures ColonAt(key + ":" + rest) == |key|
  {
    if key != "" {
      ColonAfter(key[1..], rest);
      assert (key + ":" + rest)[1..] == key[1..] + ":" + rest && key[0] != ':';
    }
  }

  // Lines -------------------------------------------------------------------

  function LineEnd(t: string): (i: nat)
    ensures i <= |t| && (forall j :: 0 <= j < i ==> !IsNewline(t[j])) && (i < |t| ==> IsNewline(t[i]))
  {
    if t == "" || IsNewline(t[0]) then 0 else 1 + LineEnd(t[1..])
  }

  /** Reading a file line by line, with universal newlines; the terminators are left off. */
  function Lines(t: string): (r: seq<string>)
    ensures forall i :: 0 <= i < |r| ==> OneLine(r[i])
    decreases |t|
  {
    var i := LineEnd(t);
    if t == "" then []
    else if i == |t| then [t]
    else [t[..i]] + Lines(t[i + if t[i] == '\r' && i + 1 < |t| && t[i + 1] == '\n' then 2 else 1..])
  }

  /** Writing lines. */
  function Unlines(ls: seq<string>): (r: string) {
    if ls == [] then "" else ls[0] + "\n" + Unlines(ls[1..])
  }

  lemma {:induction false} LineEndAt(l: string, rest: string)
    requires OneLine(l)
    ensures LineEnd(l + "\n" + rest) == |l|
  {
    if l != "" {
      LineEndAt(l[1..], rest);
      assert (l + "\n" + rest)[1..] == l[1..] + "\n" + rest;
    }
  }

  lemma LinesCons(l: string, rest: string)
    requires OneLine(l)
    ensures Lines(l + "\n" + rest) == [l] + Lines(rest)
  {
    var t := l + "\n" + rest;
    LineEndAt(l, rest);
    assert t[|l|] == '\n' && t[..|l|] == l && t[|l| + 1..] == rest;
  }

  lemma {:induction false} LinesUnlines(ls: seq<string>)
    requires forall i :: 0 <= i < |ls| ==> OneLine(ls[i])
    ensures Lines(Unlines(ls)) == ls
  {
    hide Lines;
    if ls == [] {
      NoLines();
    } else {
      LinesCons(ls[0], Unlines(ls[1..]));
      LinesUnlines(ls[1..]);
    }
  }

  lemma NoLines()
    ensures Lines("") == []
  {
  }
}
