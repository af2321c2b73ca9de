/**
 Laws of the exception parser: how it composes, which lines it can do without, and that it reads
 back what was written.
 */
module AuditParserLaws {
  import opened Collections
  import opened AuditText
  import opened AuditParser

  // Composition -------------------------------------------------------------

  lemma {:induction false} FoldAppend(s: State, a: seq<string>, b: seq<string>)
    ensures Fold(s, a + b) == if Fold(s, a).Ok? then Fold(Fold(s, a).value, b) else Fold(s, a)
    decreases |a|
  {
    hide Classify;
    if a == [] {
      assert a + b == b;
    } else {
      assert (a + b)[1..] == a[1..] + b;
      var next := Step(s, Classify(a[0]));
      if next.Ok? { FoldAppend(next.value, a[1..], b); }
    }
  }

  /** The first line that is not ignored; Ignored when there is none. */
  function Next(lines: seq<string>): (r: Line) {
    if lines == [] then Ignored
    else if Classify(lines[0]).Ignored? then Next(lines[1..])
    else Classify(lines[0])
  }

  function Behind(done: seq<Record>, r: Result<State, ParseError>): (res: Result<State, ParseError>) {
    if r.Ok? then Ok(State(done + r.value.done, r.value.current)) else r
  }

  /** What is already done stays in front. */
  lemma {:induction false} FoldBehind(done: seq<Record>, s: State, lines: seq<string>)
    ensures Fold(State(done + s.done, s.current), lines) == Behind(done, Fold(s, lines))
    decreases |lines|
  {
    hide Classify;
    if lines != [] {
      var next := Step(s, Classify(lines[0]));
      if next.Ok? {
        FoldBehind(done, next.value, lines[1..]);
        if s.current.Some? { assert done + s.done + [s.current.value] == done + Flush(s); }
        assert Step(State(done + s.done, s.current), Classify(lines[0])) == Ok(State(done + next.value.done, next.value.current));
      }
    }
  }

  /** A block that does not go on with the item before it closes that item, or says nothing at all. */
  lemma {:induction false} FoldApart(s: State, lines: seq<string>)
    requires !Next(lines).Pair?
    ensures Next(lines).Ignored? ==> Fold(s, lines) == Ok(s)
    ensures !Next(lines).Ignored? ==> Fold(s, lines) == Fold(State(Flush(s), None), lines)
    decreases |lines|
  {
    hide Classify;
    if lines != [] && Classify(lines[0]).Ignored? { FoldApart(s, lines[1..]); FoldApart(State(Flush(s), None), lines[1..]); }
  }

  function Both(a: Result<seq<Record>, ParseError>, b: Result<seq<Record>, ParseError>): (r: Result<seq<Record>, ParseError>) {
    if a.Err? then a else if b.Err? then b else Ok(a.value + b.value)
  }

  /** Two blocks parse to the two parses, one after the other, if the second does not start in the middle of an item. */
  lemma ParseAppend(a: seq<string>, b: seq<string>)
    requires !Next(b).Pair?
    ensures Parse(a + b) == Both(Parse(a), Parse(b))
  {
    hide Fold, Next;
    var start := State([], None);
    FoldAppend(start, a, b);
    FoldApart(start, b);
    if Fold(start, a).Ok? {
      var s := Fold(start, a).value;
      FoldApart(s, b);
      FoldBehind(Flush(s), start, b);
      assert Flush(s) + start.done == Flush(s);
      var t := Fold(start, b);
      if t.Ok? && t.value.current.Some? {
        assert Flush(s) + t.value.done + [t.value.current.value] == Flush(s) + Flush(t.value);
      }
    }
  }

  /** Parsing only adds: closed records stay, and the open one keeps its keys. */
  lemma {:induction false} FoldGrows(s: State, lines: seq<string>)
    requires Fold(s, lines).Ok?
    ensures var t := Fold(s, lines).value;
      && |Flush(s)| <= |Flush(t)| && s.done <= t.done
      && (s.current.Some? ==> s.current.value.Keys <= Flush(t)[|s.done|].Keys)
    decreases |lines|
  {
    hide Classify;
    if lines != [] {
      var next := Step(s, Classify(lines[0])).value;
      FoldGrows(next, lines[1..]);
      assert Classify(lines[0]).Item? && s.current.Some? ==> next.done[|s.done|] == s.current.value;
    }
  }

  lemma FoldOne(s: State, l: string)
    ensures Fold(s, [l]) == Step(s, Classify(l))
  {
    hide Classify;
    assert [l][1..] == [];
  }

  /** That condition is needed: a block that starts in the middle of an item changes the last record of
      some block before it. */
  lemma ParseAppendOnly(b: seq<string>)
    requires Next(b).Pair? && Parse(b).Ok?
    ensures exists a :: Parse(a + b) != Both(Parse(a), Parse(b))
  {
    hide *;
    var name := if Next(b).key == "a" then "b" else "a";
    CleanNames();
    ClassifyItem(name, "");
    ChangesRecord(name, "", ItemLine(name, ""), b);
  }

  /** Exactly: a block composes with every block before it unless it starts in the middle of an item and can
      be parsed. */
  lemma ParseAppendIff(b: seq<string>)
    ensures (forall a :: Parse(a + b) == Both(Parse(a), Parse(b))) <==> !Next(b).Pair? || Parse(b).Err?
  {
    hide Parse, Next;
    if !Next(b).Pair? {
      forall a ensures Parse(a + b) == Both(Parse(a), Parse(b)) { ParseAppend(a, b); }
    } else if Parse(b).Err? {
      forall a ensures Parse(a + b) == Both(Parse(a), Parse(b)) { BrokenAppend(a, b); }
    } else {
      ParseAppendOnly(b);
    }
  }

  lemma BrokenAppend(a: seq<string>, b: seq<string>)
    requires Parse(b).Err?
    ensures Parse(a + b) == Both(Parse(a), Parse(b))
  {
    hide Fold;
    var start := State([], None);
    FoldAppend(start, a, b);
    if Fold(start, a).Ok? { FoldBroken(start, Fold(start, a).value, b); }
  }

  /** A broken line stops the parser in every state. */
  lemma {:induction false} FoldBroken(s: State, t: State, lines: seq<string>)
    requires Fold(s, lines).Err?
    ensures Fold(t, lines) == Fold(s, lines)
    decreases |lines|
  {
    hide Classify;
    var line := Classify(lines[0]);
    if !line.Broken? { FoldBroken(Step(s, line).value, Step(t, line).value, lines[1..]); }
  }

  lemma CleanNames()
    ensures Clean("a") && Clean("b")
  {
  }

  lemma ChangesRecord(name: string, v: string, l: string, b: seq<string>)
    requires Next(b).Pair? && Parse(b).Ok? && Next(b).key != name && Classify(l) == Item(name, v)
    ensures Parse([l] + b) != Both(Parse([l]), Parse(b))
  {
    OneItem(name, v, l, b);
    var s := State([], Some(map[name := v]));
    TakesPair(s, b);
    hide *;
    ParseIs([l] + b);
    BothFirst(map[name := v], Parse([l]), Parse(b));
  }

  lemma BothFirst(first: Record, a: Result<seq<Record>, ParseError>, b: Result<seq<Record>, ParseError>)
    requires a == Ok([first]) && b.Ok?
    ensures Both(a, b).Ok? && Both(a, b).value != [] && Both(a, b).value[0] == first
  {
  }

  lemma ParseIs(lines: seq<string>)
    ensures Parse(lines).Ok? <==> Fold(State([], None), lines).Ok?
    ensures Parse(lines).Ok? ==> Parse(lines).value == Flush(Fold(State([], None), lines).value)
  {
    hide Fold;
  }

  lemma OneItem(name: string, v: string, l: string, b: seq<string>)
    requires Classify(l) == Item(name, v)
    ensures Parse([l]) == Ok([map[name := v]])
    ensures Fold(State([], None), [l] + b) == Fold(State([], Some(map[name := v])), b)
  {
    var start := State([], None);
    FoldOne(start, l);
    FoldAppend(start, [l], b);
    hide Classify, Fold;
    assert [] + [map[name := v]] == [map[name := v]];
  }

  lemma {:induction false} TakesPair(s: State, b: seq<string>)
    requires Next(b).Pair? && s.current.Some? && s.done == []
    ensures Fold(s, b).Ok? ==> Flush(Fold(s, b).value) != [] && Next(b).key in Flush(Fold(s, b).value)[0]
    decreases |b|
  {
    hide Classify;
    if Classify(b[0]).Ignored? {
      TakesPair(s, b[1..]);
    } else if Fold(s, b).Ok? {
      FoldGrows(Step(s, Classify(b[0])).value, b[1..]);
    }
  }

  /** A line can be put anywhere without effect exactly when it is ignored: blank, a comment, a header,
      or neither an item nor a pair. */
  lemma Insertable(a: seq<string>, l: string, b: seq<string>)
    requires Classify(l).Ignored?
    ensures Parse(a + [l] + b) == Parse(a + b)
  {
    hide Classify;
    var start := State([], None);
    assert a + [l] + b == a + ([l] + b);
    FoldAppend(start, a, [l] + b);
    FoldAppend(start, a, b);
    assert ([l] + b)[1..] == b;
  }

  lemma InsertableOnly(l: string)
    requires !Classify(l).Ignored?
    ensures exists a, b :: Parse(a + [l] + b) != Parse(a + b)
  {
    var none: seq<string> := [];
    FoldOne(State([], None), l);
    hide Classify, Fold;
    assert none + [l] + none == [l] && none + none == none;
    EmptyParses();
    if Classify(l).Pair? {
      NextOne(l);
      ParseAppendOnly([l]);
      var a :| Parse(a + [l]) != Both(Parse(a), Parse([l]));
      assert a + [l] + none == a + [l] && a + none == a;
      assert Parse([l]) == Ok([]);
      assert Parse(a).Ok? ==> Parse(a).value + [] == Parse(a).value;
      assert Parse(a + [l] + none) != Parse(a + none);
    } else {
      assert Parse(none + [l] + none) != Parse(none + none);
    }
  }

  lemma EmptyParses()
    ensures Parse([]) == Ok([])
  {
  }

  lemma NextOne(l: string)
    ensures Next([l]) == Classify(l)
  {
    hide Classify;
    assert [l][1..] == [];
  }

  // Round trip --------------------------------------------------------------

  function PairLine(k: string, v: string): (r: string) {
    k + ":" + (" " + Quote(v))
  }

  function ItemLine(k: string, v: string): (r: string) {
    "- " + PairLine(k, v)
  }

  /** A key that can start an item. */
  predicate Clean(k: string) {
    k != "" && !IsSpace(k[0]) && !IsSpace(k[|k| - 1]) && ':' !in k && OneLine(k)
  }

  /** A key that can also come later in an item. */
  predicate CleanLater(k: string) {
    Clean(k) && k[0] != '#' && k != "version" && k != "exceptions" && !("- " <= k)
  }

  lemma StripSame(s: string)
    requires s != "" && !IsSpace(s[0]) && !IsSpace(s[|s| - 1])
    ensures Strip(s) == s
  {
    StripCore("", s, "");
    assert "" + s + "" == s;
  }

  function Quote(v: string): (r: string) {
    "\"" + v + "\""
  }

  lemma Requoted(v: string)
    ensures Unquote(Strip(" " + Quote(v))) == v
  {
    hide Strip;
    StripCore(" ", Quote(v), "");
    assert " " + Quote(v) + "" == " " + Quote(v);
    assert Quote(v)[1..|Quote(v)| - 1] == v;
  }

  lemma SplitPair(k: string, v: string)
    requires Clean(k)
    ensures SplitKv(PairLine(k, v)) == Some((k, v))
  {
    hide Strip, IsSpace;
    var line := PairLine(k, v);
    ColonAfter(k, " " + Quote(v));
    assert line[..|k|] == k && line[|k| + 1..] == " " + Quote(v);
    StripSame(k);
    Requoted(v);
  }

  lemma ClassifyItem(k: string, v: string)
    requires Clean(k)
    ensures Classify(ItemLine(k, v)) == Item(k, v)
  {
    hide Strip, SplitKv;
    var pair := PairLine(k, v);
    var line := ItemLine(k, v);
    assert line[0] == '-' && line[|line| - 1] == '"' && pair[0] == k[0] && pair[|pair| - 1] == '"';
    StripSame(line);
    StripSame(pair);
    assert line[2..] == pair;
    SplitPair(k, v);
  }

  lemma ClassifyPair(k: string, v: string)
    requires CleanLater(k)
    ensures Classify("  " + PairLine(k, v)) == Pair(k, v)
  {
    hide Strip, SplitKv;
    var line := PairLine(k, v);
    assert line[0] == k[0] && line[|line| - 1] == '"';
    StripCore("  ", line, "");
    assert "  " + line + "" == "  " + line;
    SplitPair(k, v);
    NotHeader(k, v);
  }

  lemma NotHeader(k: string, v: string)
    requires CleanLater(k)
    ensures var line := PairLine(k, v); !StartsWith(line, "- ") && !StartsWith(line, "#") && !Header(line)
  {
    var line := PairLine(k, v);
    HeaderKey(k, " " + Quote(v), "version");
    HeaderKey(k, " " + Quote(v), "exceptions");
    assert "version" + ":" == "version:" && "exceptions" + ":" == "exceptions:";
    assert line[0] == k[0];
    assert if |k| == 1 then line[1] == ':' else line[1] == k[1] && k[..2] == [k[0], k[1]];
  }

  lemma HeaderKey(k: string, rest: string, word: string)
    requires ':' !in k && ':' !in word
    ensures StartsWith(k + ":" + rest, word + ":") ==> k == word
  {
    var line := k + ":" + rest;
    ColonAfter(k, rest);
    if StartsWith(line, word + ":") {
      ColonAfter(word, line[|word| + 1..]);
      assert line == word + ":" + line[|word| + 1..];
      assert k == line[..|k|] && word == line[..|word|];
    }
  }

  /** The other ways of writing a value: single quotes, and none for a value that has no quote or space
      at its ends; a value in quotes that do not match keeps them, and of a lone quote nothing is left. */
  lemma OtherQuotes(k: string, v: string)
    requires Clean(k)
    ensures SplitKv(k + ":" + (" " + ("'" + v + "'"))) == Some((k, v))
    ensures v != "" && !IsSpace(v[0]) && !IsSpace(v[|v| - 1]) && v[0] != '"' && v[0] != '\'' ==> SplitKv(k + ":" + (" " + v)) == Some((k, v))
    ensures SplitKv(k + ":" + (" " + "'")) == Some((k, "")) && SplitKv(k + ":" + (" " + "\"")) == Some((k, ""))
    ensures SplitKv(k + ":" + (" " + ("\"" + v + "'"))) == Some((k, "\"" + v + "'"))
    ensures SplitKv(k + ":" + (" " + ("'" + v + "\""))) == Some((k, "'" + v + "\""))
  {
    QuoteForms(v);
    hide SplitKv, IsSpace, Unquote, Clean;
    NoSpace();
    SplitSpaced(k, "'" + v + "'");
    SplitSpaced(k, "\"" + v + "'");
    SplitSpaced(k, "'" + v + "\"");
    SplitSpaced(k, "'");
    SplitSpaced(k, "\"");
    if v != "" && !IsSpace(v[0]) && !IsSpace(v[|v| - 1]) { SplitSpaced(k, v); }
  }

  lemma NoSpace()
    ensures !IsSpace('"') && !IsSpace('\'')
  {
  }

  lemma QuoteForms(v: string)
    ensures Unquote("'" + v + "'") == v && Unquote("'") == "" && Unquote("\"") == ""
    ensures Unquote("\"" + v + "'") == "\"" + v + "'" && Unquote("'" + v + "\"") == "'" + v + "\""
    ensures v != "" && v[0] != '"' && v[0] != '\'' ==> Unquote(v) == v
  {
    var single, one, two := "'" + v + "'", "\"" + v + "'", "'" + v + "\"";
    assert single[0] == '\'' && single[|single| - 1] == '\'' && single[1..|single| - 1] == v;
    assert one[0] == '"' && one[|one| - 1] == '\'' && two[0] == '\'' && two[|two| - 1] == '"';
  }

  lemma SplitSpaced(k: string, v: string)
    requires Clean(k) && v != "" && !IsSpace(v[0]) && !IsSpace(v[|v| - 1])
    ensures SplitKv(k + ":" + (" " + v)) == Some((k, Unquote(v)))
  {
    hide Strip, IsSpace, Unquote;
    var line := k + ":" + (" " + v);
    ColonAfter(k, " " + v);
    assert line[..|k|] == k && line[|k| + 1..] == " " + v;
    StripSame(k);
    Spaced(v);
  }

  lemma Spaced(v: string)
    requires v != "" && !IsSpace(v[0]) && !IsSpace(v[|v| - 1])
    ensures Strip(" " + v) == v
  {
    StripCore(" ", v, "");
    assert " " + v + "" == " " + v;
  }

  /** Comments, the two headers and blank lines are ignored, however far they are indented. */
  lemma IgnoredLines(left: string, rest: string)
    requires forall i :: 0 <= i < |left| ==> IsSpace(left[i])
    ensures Classify(left).Ignored? && Classify(left + "#" + rest).Ignored?
    ensures Classify(left + "version:" + rest).Ignored? && Classify(left + "exceptions:" + rest).Ignored?
  {
    StripLeftPad(left, "");
    assert left + "" == left;
    StartKept(left, "#", rest);
    StartKept(left, "version:", rest);
    StartKept(left, "exceptions:", rest);
    hide Strip, SplitKv;
  }

  lemma StartKept(left: string, word: string, rest: string)
    requires forall i :: 0 <= i < |left| ==> IsSpace(left[i])
    requires word != "" && !IsSpace(word[0]) && !IsSpace(word[|word| - 1])
    ensures StartsWith(Strip(left + word + rest), word)
  {
    assert left + word + rest == left + (word + rest);
    StripLeftPad(left, word + rest);
    StripRightKeeps(word + rest, |word| - 1);
  }

  /** An item line without a colon stops the parser wherever it stands, if nothing before it does. */
  lemma NoColonStops(a: seq<string>, text: string, b: seq<string>)
    requires text != "" && !IsSpace(text[0]) && !IsSpace(text[|text| - 1]) && ':' !in text
    ensures Parse(a).Ok? ==> Parse(a + ["- " + text] + b) == Err(NoColon(text))
  {
    BrokenLine(text);
    var l := "- " + text;
    FoldAppend(State([], None), a + [l], b);
    FoldAppend(State([], None), a, [l]);
    if Fold(State([], None), a).Ok? { FoldOne(Fold(State([], None), a).value, l); }
    hide Classify, Fold;
  }

  lemma BrokenLine(text: string)
    requires text != "" && !IsSpace(text[0]) && !IsSpace(text[|text| - 1]) && ':' !in text
    ensures Classify("- " + text) == Broken(text)
  {
    var l := "- " + text;
    assert l[0] == '-' && l[1] == ' ' && l[2..] == text && l[|l| - 1] == text[|text| - 1];
    StripSame(l);
    StripSame(text);
    hide Strip;
  }

  /** Lines may end in a carriage return, alone or with a line feed, and the last one need not end. */
  lemma OtherEnds(l: string, rest: string)
    requires OneLine(l)
    ensures Lines(l + "\r\n" + rest) == [l] + Lines(rest)
    ensures !StartsWith(rest, "\n") ==> Lines(l + "\r" + rest) == [l] + Lines(rest)
    ensures l != "" ==> Lines(l) == [l]
  {
    LineEndIs(l, "\r\n" + rest);
    assert l + "\r\n" + rest == l + ("\r\n" + rest);
    LineEndIs(l, "\r" + rest);
    assert l + "\r" + rest == l + ("\r" + rest);
    LineEndIs(l, "");
    assert l + "" == l;
    var t, u := l + "\r\n" + rest, l + "\r" + rest;
    assert t[..|l|] == l && t[|l|] == '\r' && t[|l| + 1] == '\n' && t[|l| + 2..] == rest;
    assert u[..|l|] == l && u[|l|] == '\r' && u[|l| + 1..] == rest;
    assert |l| + 1 < |u| ==> u[|l| + 1] == rest[0];
  }

  lemma {:induction false} LineEndIs(l: string, rest: string)
    requires OneLine(l) && (rest == "" || IsNewline(rest[0]))
    ensures LineEnd(l + rest) == |l|
  {
    if l == "" {
      assert l + rest == rest;
    } else {
      LineEndIs(l[1..], rest);
      assert (l + rest)[1..] == l[1..] + rest;
    }
  }

  function PrintPairs(pairs: seq<(string, string)>): (r: seq<string>) {
    if pairs == [] then [] else ["  " + PairLine(pairs[0].0, pairs[0].1)] + PrintPairs(pairs[1..])
  }

  /** One item, its pairs each on a line of its own with the value in double quotes. */
  function PrintItem(pairs: seq<(string, string)>): (r: seq<string>)
    requires pairs != []
  {
    [ItemLine(pairs[0].0, pairs[0].1)] + PrintPairs(pairs[1..])
  }

  function Print(items: seq<seq<(string, string)>>): (r: seq<string>)
    requires forall i :: 0 <= i < |items| ==> items[i] != []
  {
    if items == [] then [] else PrintItem(items[0]) + Print(items[1..])
  }

  function Onto(m: Record, pairs: seq<(string, string)>): (r: Record)
    decreases |pairs|
  {
    if pairs == [] then m else Onto(m[pairs[0].0 := pairs[0].1], pairs[1..])
  }

  ghost predicate Printable(pairs: seq<(string, string)>) {
    pairs != [] && Clean(pairs[0].0) && forall i :: 1 <= i < |pairs| ==> CleanLater(pairs[i].0)
  }

  lemma {:induction false} FoldPairs(s: State, pairs: seq<(string, string)>)
    requires s.current.Some? && forall i :: 0 <= i < |pairs| ==> CleanLater(pairs[i].0)
    ensures Fold(s, PrintPairs(pairs)) == Ok(State(s.done, Some(Onto(s.current.value, pairs))))
    decreases |pairs|
  {
    if pairs != [] {
      var (k, v) := pairs[0];
      ClassifyPair(k, v);
      hide Classify, CleanLater, PairLine;
      FoldPairs(State(s.done, Some(s.current.value[k := v])), pairs[1..]);
      assert PrintPairs(pairs)[1..] == PrintPairs(pairs[1..]);
    }
  }

  lemma ParseItem(pairs: seq<(string, string)>)
    requires Printable(pairs)
    ensures Parse(PrintItem(pairs)) == Ok([Onto(map[], pairs)])
    ensures Classify(PrintItem(pairs)[0]).Item?
  {
    hide Classify, ItemLine, Fold, PrintPairs, Parse, Clean, CleanLater;
    var (k, v) := pairs[0];
    ClassifyItem(k, v);
    OneItem(k, v, ItemLine(k, v), PrintPairs(pairs[1..]));
    FoldPairs(State([], Some(map[k := v])), pairs[1..]);
    assert Onto(map[], pairs) == Onto(map[k := v], pairs[1..]);
    ParseIs(PrintItem(pairs));
    assert [] + [Onto(map[], pairs)] == [Onto(map[], pairs)];
    assert PrintItem(pairs)[0] == ItemLine(k, v);
  }

  lemma HasLines(pairs: seq<(string, string)>)
    requires pairs != []
    ensures PrintItem(pairs) != []
  {
  }

  function Entered(items: seq<seq<(string, string)>>): (r: seq<Record>)
    ensures |r| == |items| && forall i :: 0 <= i < |items| ==> r[i] == Onto(map[], items[i])
  {
    seq(|items|, i requires 0 <= i < |items| => Onto(map[], items[i]))
  }

  /** What is printed is read back, whatever the values hold. */
  lemma {:induction false} ParsePrint(items: seq<seq<(string, string)>>)
    requires forall i :: 0 <= i < |items| ==> items[i] != [] && Printable(items[i])
    ensures Parse(Print(items)) == Ok(Entered(items))
    ensures items != [] ==> Next(Print(items)).Item?
    ensures items == [] ==> Next(Print(items)).Ignored?
    decreases |items|
  {
    if items == [] {
      EmptyParses();
    } else {
      ParsePrint(items[1..]);
      ParseItem(items[0]);
      PrintCons(items);
      hide *;
      ParseAppend(PrintItem(items[0]), Print(items[1..]));
      NextOfItem(PrintItem(items[0]), Print(items[1..]));
      BothCons(Parse(PrintItem(items[0])), Parse(Print(items[1..])), Onto(map[], items[0]), Entered(items[1..]));
    }
  }

  lemma NextOfItem(a: seq<string>, b: seq<string>)
    requires a != [] && Classify(a[0]).Item?
    ensures Next(a + b) == Classify(a[0])
  {
    hide Classify;
  }

  lemma BothCons(a: Result<seq<Record>, ParseError>, b: Result<seq<Record>, ParseError>, x: Record, xs: seq<Record>)
    requires a == Ok([x]) && b == Ok(xs)
    ensures Both(a, b) == Ok([x] + xs)
  {
  }

  lemma PrintCons(items: seq<seq<(string, string)>>)
    requires items != [] && forall i :: 0 <= i < |items| ==> items[i] != []
    ensures Print(items) == PrintItem(items[0]) + Print(items[1..]) && PrintItem(items[0]) != []
    ensures Entered(items) == [Onto(map[], items[0])] + Entered(items[1..])
  {
    HasLines(items[0]);
    EnteredCons(items);
    hide Entered, PrintItem;
  }

  lemma EnteredCons(items: seq<seq<(string, string)>>)
    requires items != []
    ensures Entered(items) == [Onto(map[], items[0])] + Entered(items[1..])
  {
    hide *;
    var a, b := Entered(items), [Onto(map[], items[0])] + Entered(items[1..]);
    assert |a| == |b|;
    forall i | 0 <= i < |a| ensures a[i] == b[i] {
      if i > 0 { assert items[1..][i - 1] == items[i]; }
    }
  }

  // Records over the required fields ----------------------------------------------

  function PairsOf(m: Record, names: seq<string>): (r: seq<(string, string)>)
    ensures forall i :: 0 <= i < |r| ==> r[i].0 in names && r[i].0 in m && r[i].1 == m[r[i].0]
    ensures forall k :: k in names && k in m ==> r != []
  {
    if names == [] then []
    else if names[0] in m then [(names[0], m[names[0]])] + PairsOf(m, names[1..])
    else PairsOf(m, names[1..])
  }

  lemma {:induction false} OntoPairs(m0: Record, m: Record, names: seq<string>)
    ensures var r := Onto(m0, PairsOf(m, names));
      && r.Keys == m0.Keys + (set k | k in names && k in m)
      && forall k :: k in r ==> r[k] == if k in names && k in m then m[k] else m0[k]
    decreases |names|
  {
    if names != [] {
      OntoPairs(if names[0] in m then m0[names[0] := m[names[0]]] else m0, m, names[1..]);
    }
  }

  lemma FieldsClean(k: string)
    requires k in REQUIRED_FIELDS
    ensures CleanLater(k)
  {
    var c := ['p', 'a', 's', 'm', 'e'];
    assert k[0] in c;
  }

  /** A record that the tool reads: some of the required fields and nothing else. */
  ghost predicate Proper(m: Record) {
    m != map[] && m.Keys <= (set k | k in REQUIRED_FIELDS) && forall k :: k in m ==> OneLine(m[k])
  }

  function Written(records: seq<Record>): (r: seq<seq<(string, string)>>)
    ensures |r| == |records| && forall i :: 0 <= i < |r| ==> r[i] == PairsOf(records[i], REQUIRED_FIELDS)
  {
    seq(|records|, i requires 0 <= i < |records| => PairsOf(records[i], REQUIRED_FIELDS))
  }

  lemma OntoAll(m: Record, names: seq<string>)
    requires forall k :: k in m ==> k in names
    ensures Onto(map[], PairsOf(m, names)) == m
  {
    OntoPairs(map[], m, names);
    hide Onto, PairsOf;
    var r := Onto(map[], PairsOf(m, names));
    assert r.Keys == m.Keys;
  }

  lemma WrittenBack(m: Record)
    requires Proper(m)
    ensures var pairs := PairsOf(m, REQUIRED_FIELDS); Printable(pairs) && Onto(map[], pairs) == m
  {
    hide Clean, CleanLater, Onto, PairsOf;
    var pairs := PairsOf(m, REQUIRED_FIELDS);
    var k :| k in m;
    assert k in REQUIRED_FIELDS;
    assert pairs != [];
    forall i | 0 <= i < |pairs| ensures CleanLater(pairs[i].0) && Clean(pairs[i].0) {
      FieldsClean(pairs[i].0);
      LaterClean(pairs[i].0);
    }
    OntoAll(m, REQUIRED_FIELDS);
  }

  lemma LaterClean(k: string)
    ensures CleanLater(k) ==> Clean(k)
  {
  }

  /** The text file written for any records over the required fields is read back as those records,
      in order, for values with colons, quotes, hashes or space at the edges. */
  lemma TextRoundTrip(records: seq<Record>)
    requires forall i :: 0 <= i < |records| ==> Proper(records[i])
    ensures forall i :: 0 <= i < |records| ==> Written(records)[i] != []
    ensures Parse(Lines(Unlines(Print(Written(records))))) == Ok(records)
  {
    var items := Written(records);
    forall i | 0 <= i < |records| ensures Printable(items[i]) && Onto(map[], items[i]) == records[i] {
      WrittenBack(records[i]);
    }
    hide PairsOf, Onto, Parse, Print, Lines, Unlines, Printable;
    ParsePrint(items);
    assert Entered(items) == records;
    NamesOneLine();
    PrintOneLine(items);
    LinesUnlines(Print(items));
  }

  lemma NamesOneLine()
    ensures forall k :: k in REQUIRED_FIELDS ==> OneLine(k)
  {
    forall k | k in REQUIRED_FIELDS ensures OneLine(k) { FieldsClean(k); }
  }

  lemma {:induction false} PairsOneLine(pairs: seq<(string, string)>)
    requires forall i :: 0 <= i < |pairs| ==> OneLine(pairs[i].0) && OneLine(pairs[i].1)
    ensures forall i :: 0 <= i < |PrintPairs(pairs)| ==> OneLine(PrintPairs(pairs)[i])
    decreases |pairs|
  {
    if pairs != [] {
      PairsOneLine(pairs[1..]);
      assert OneLine(PairLine(pairs[0].0, pairs[0].1));
    }
  }

  lemma {:induction false} PrintOneLine(items: seq<seq<(string, string)>>)
    requires forall i :: 0 <= i < |items| ==> items[i] != []
    requires forall i, j :: 0 <= i < |items| && 0 <= j < |items[i]| ==> OneLine(items[i][j].0) && OneLine(items[i][j].1)
    ensures forall i :: 0 <= i < |Print(items)| ==> OneLine(Print(items)[i])
    decreases |items|
  {
    if items != [] {
      var pairs := items[0];
      PairsOneLine(pairs[1..]);
      assert OneLine(PairLine(pairs[0].0, pairs[0].1));
      PrintOneLine(items[1..]);
    }
  }
}
