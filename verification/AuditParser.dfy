/**
 The line parser for the list of audit exceptions.
 */
module AuditParser {
  import opened Collections
  import opened AuditText

  type Record = map<string, string>

  /** The tool stops with an exception: an item line without a colon. */
  datatype ParseError = NoColon(line: string)

  const REQUIRED_FIELDS: seq<string> := ["package", "advisory", "severity", "mitigation", "expires_on"]

  predicate Quoted(v: string) {
    || (StartsWith(v, "\"") && EndsWith(v, '"'))
    || (StartsWith(v, "'") && EndsWith(v, '\''))
  }

  /** A slice `v[1:-1]`: a value that is one quote becomes empty. */
  function Unquote(v: string): (r: string) {
    if !Quoted(v) then v else if |v| < 2 then "" else v[1..|v| - 1]
  }

  function SplitKv(line: string): (r: Option<(string, string)>) {
    var i := ColonAt(line);
    if i == |line| then None else Some((Strip(line[..i]), Unquote(Strip(line[i + 1..]))))
  }

  // Meaning -----------------------------------------------------------------

  /** What one line says, whatever came before it. */
  datatype Line = Ignored | Item(key: string, value: string) | Pair(key: string, value: string) | Broken(line: string)

  predicate Header(line: string) {
    StartsWith(line, "version:") || StartsWith(line, "exceptions:")
  }

  function Classify(raw: string): (r: Line) {
    var line := Strip(raw);
    if line == "" || StartsWith(line, "#") || Header(line) then Ignored
    else if StartsWith(line, "- ") then
      match SplitKv(Strip(line[2..]))
      case None => Broken(Strip(line[2..]))
      case Some((k, v)) => Item(k, v)
    else
      match SplitKv(line)
      case None => Ignored
      case Some((k, v)) => Pair(k, v)
  }

  datatype State = State(done: seq<Record>, current: Option<Record>)

  function Flush(s: State): (r: seq<Record>) {
    if s.current.Some? then s.done + [s.current.value] else s.done
  }

  function Step(s: State, l: Line): (r: Result<State, ParseError>) {
    match l
    case Ignored => Ok(s)
    case Item(k, v) => Ok(State(Flush(s), Some(map[k := v])))
    case Pair(k, v) => Ok(if s.current.Some? then State(s.done, Some(s.current.value[k := v])) else s)
    case Broken(line) => Err(NoColon(line))
  }

  function Fold(s: State, lines: seq<string>): (r: Result<State, ParseError>)
    decreases |lines|
  {
    if lines == [] then Ok(s)
    else
      match Step(s, Classify(lines[0]))
      case Err(x) => Err(x)
      case Ok(s') => Fold(s', lines[1..])
  }

  function Parse(lines: seq<string>): (r: Result<seq<Record>, ParseError>) {
    match Fold(State([], None), lines)
    case Err(x) => Err(x)
    case Ok(s) => Ok(Flush(s))
  }

  // The parser --------------------------------------------------------------

  method ParseExceptions(text: string) returns (r: Result<seq<Record>, ParseError>)
    ensures r == Parse(Lines(text))
  {
    hide Lines, Fold, Strip, SplitKv;
    var lines := Lines(text);
    assert lines[0..] == lines;
    var exceptions: seq<Record> := [];
    var current: Option<Record> := None;
    for i := 0 to |lines|
      invariant current.Some? ==> current.value != map[]
      invariant Fold(State(exceptions, current), lines[i..]) == Fold(State([], None), lines)
    {
      FoldNext(State(exceptions, current), lines, i);
      var line := Strip(lines[i]);
      if line == "" || StartsWith(line, "#") {
        continue;
      }
      if StartsWith(line, "version:") || StartsWith(line, "exceptions:") {
        continue;
      }
      if StartsWith(line, "- ") {
        ItemHasText(lines[i]);
        if current.Some? && current.value != map[] {
          exceptions := exceptions + [current.value];
        }
        current := Some(map[]);
        line := Strip(line[2..]);
        if line != "" {
          var kv := SplitKv(line);
          if kv.None? {
            return Err(NoColon(line));
          }
          current := Some(current.value[kv.value.0 := kv.value.1]);
          assert kv.value.0 in current.value;
        }
        continue;
      }
      if current.Some? && ':' in line {
        var kv := SplitKv(line);
        HasColon(line);
        current := Some(current.value[kv.value.0 := kv.value.1]);
        assert kv.value.0 in current.value;
      } else {
        HasColon(line);
      }
    }
    assert lines[|lines|..] == [];
    FoldEnd(State(exceptions, current));
    if current.Some? && current.value != map[] {
      exceptions := exceptions + [current.value];
    }
    return Ok(exceptions);
  }

  lemma FoldNext(s: State, lines: seq<string>, i: nat)
    requires i < |lines|
    ensures Fold(s, lines[i..])
      == match Step(s, Classify(lines[i]))
         case Err(x) => Err(x)
         case Ok(s') => Fold(s', lines[i + 1..])
  {
    hide Classify, Step;
    assert lines[i..][0] == lines[i] && lines[i..][1..] == lines[i + 1..];
  }

  lemma FoldEnd(s: State)
    ensures Fold(s, []) == Ok(s)
  {
  }

  /** A stripped line that starts an item has text behind the dash, so no item starts out empty. */
  lemma ItemHasText(raw: string)
    requires StartsWith(Strip(raw), "- ")
    ensures Strip(Strip(raw)[2..]) != ""
  {
    var line := Strip(raw);
    StripEdges(raw);
    assert line[1] == ' ';
    StripBlank(line[2..], |line| - 3);
  }

  lemma HasColon(line: string)
    ensures ':' in line <==> SplitKv(line).Some?
  {
  }
}
