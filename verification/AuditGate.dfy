/**
 The audit gate: it collects the vulnerabilities of an audit report, indexes the exceptions by
 package and advisory, and decides whether the build may go on.
 */
module AuditGate {
  import opened Collections
  import opened AuditText
  import opened AuditParser

  /** A decoded JSON value; the keys of an object are distinct. */
  datatype Json = Null | Flag(b: bool) | Num(n: real) | Str(s: string) | Arr(items: seq<Json>) | Obj(fields: Fields)

  type Fields = seq<(string, Json)>

  /** Library functions: `str.lower`, `str` of what is no string, and the parser of ISO dates, by day number. */
  datatype Py = Py(lower: string -> string, show: Json -> string, date: string -> Option<int>)

  /** The tool stops with an exception. */
  datatype Stop = Unparsed(error: ParseError) | BadShape

  datatype Entry = Entry(name: Json, severity: Json, advisory: Json)

  predicate Truthy(j: Json) {
    match j
    case Null => false
    case Flag(b) => b
    case Num(n) => n != 0.0
    case Str(s) => s != ""
    case Arr(items) => items != []
    case Obj(fields) => fields != []
  }

  function Or(a: Json, b: Json): (r: Json) {
    if Truthy(a) then a else b
  }

  function Get(fields: Fields, key: string): (r: Json) {
    if fields == [] then Null else if fields[0].0 == key then fields[0].1 else Get(fields[1..], key)
  }

  function Shown(py: Py, j: Json): (r: string) {
    if j.Str? then j.s else py.show(j)
  }

  // Collecting vulnerabilities ------------------------------------------------

  /** The first of a list of CVEs; of a string its first character. */
  function FirstCve(cves: Json): (r: Result<Json, Stop>) {
    if !Truthy(cves) then Ok(Null)
    else
      match cves
      case Arr(items) => Ok(items[0])
      case Str(s) => Ok(Str(s[..1]))
      case _ => Err(BadShape)
  }

  function PickAdvisoryId(py: Py, a: Fields): (r: Result<Json, Stop>) {
    if Truthy(Get(a, "github_advisory_id")) then Ok(Get(a, "github_advisory_id"))
    else if Truthy(Get(a, "url")) then Ok(Get(a, "url"))
    else
      match FirstCve(Get(a, "cves"))
      case Err(x) => Err(x)
      case Ok(cve) =>
        var id := if Get(a, "id") == Null then Null else Str(Shown(py, Get(a, "id")));
        Ok(Or(cve, Or(id, Or(Get(a, "title"), Or(Get(a, "advisory"), Get(a, "overview"))))))
  }

  function FromAdvisory(py: Py, j: Json): (r: Result<Entry, Stop>) {
    if !j.Obj? then Err(BadShape)
    else
      match PickAdvisoryId(py, j.fields)
      case Err(x) => Err(x)
      case Ok(id) => Ok(Entry(Or(Get(j.fields, "module_name"), Get(j.fields, "name")), Get(j.fields, "severity"), id))
  }

  function ViaAdvisory(v: Fields): (r: Json) {
    Or(Get(v, "github_advisory_id"), Or(Get(v, "url"), Or(Get(v, "source"), Or(Get(v, "title"), Get(v, "name")))))
  }

  function ViaTitle(v: Fields): (r: Json) {
    Or(Get(v, "title"), Or(Get(v, "url"), Or(Get(v, "advisory"), Get(v, "source"))))
  }

  /** The advisories and titles that a `via` names, falsy ones included. */
  function ViaPairs(items: seq<Json>): (r: seq<(Json, Json)>) {
    if items == [] then []
    else
      var n := |items| - 1;
      var item := items[n];
      if item.Obj? then ViaPairs(items[..n]) + [(ViaAdvisory(item.fields), ViaTitle(item.fields))]
      else if item.Str? then ViaPairs(items[..n]) + [(item, item)]
      else ViaPairs(items[..n])
  }

  function ViaItems(via: Json): (r: seq<Json>) {
    if via.Arr? then via.items else if via.Str? then [via] else []
  }

  /** Joining titles stops at a truthy one that is no string. */
  predicate Joins(pairs: seq<(Json, Json)>) {
    forall i :: 0 <= i < |pairs| ==> Truthy(pairs[i].1) ==> pairs[i].1.Str?
  }

  function EntriesOf(name: string, severity: Json, pairs: seq<(Json, Json)>): (r: seq<Entry>) {
    if pairs == [] then []
    else
      var n := |pairs| - 1;
      if Truthy(pairs[n].0) then EntriesOf(name, severity, pairs[..n]) + [Entry(Str(name), severity, pairs[n].0)]
      else EntriesOf(name, severity, pairs[..n])
  }

  function FromVulnerability(name: string, j: Json): (r: Result<seq<Entry>, Stop>) {
    if !j.Obj? || !Joins(ViaPairs(ViaItems(Get(j.fields, "via")))) then Err(BadShape)
    else Ok(EntriesOf(name, Get(j.fields, "severity"), ViaPairs(ViaItems(Get(j.fields, "via")))))
  }

  function FromAdvisories(py: Py, fields: Fields): (r: Result<seq<Entry>, Stop>) {
    if fields == [] then Ok([])
    else
      var n := |fields| - 1;
      match (FromAdvisories(py, fields[..n]), FromAdvisory(py, fields[n].1))
      case (Ok(es), Ok(e)) => Ok(es + [e])
      case (Err(x), _) => Err(x)
      case (_, Err(x)) => Err(x)
  }

  function FromVulnerabilities(fields: Fields): (r: Result<seq<Entry>, Stop>) {
    if fields == [] then Ok([])
    else
      var n := |fields| - 1;
      match (FromVulnerabilities(fields[..n]), FromVulnerability(fields[n].0, fields[n].1))
      case (Ok(es), Ok(more)) => Ok(es + more)
      case (Err(x), _) => Err(x)
      case (_, Err(x)) => Err(x)
  }

  /** All entries of both report formats. */
  function Vulns(py: Py, data: Json): (r: Result<seq<Entry>, Stop>) {
    if !data.Obj? then Err(BadShape)
    else
      var a, v := Get(data.fields, "advisories"), Get(data.fields, "vulnerabilities");
      match (if a.Obj? then FromAdvisories(py, a.fields) else Ok([]), if v.Obj? then FromVulnerabilities(v.fields) else Ok([]))
      case (Ok(es), Ok(more)) => Ok(es + more)
      case (Err(x), _) => Err(x)
      case (_, Err(x)) => Err(x)
  }

  method IterVulns(py: Py, data: Json) returns (r: Result<seq<Entry>, Stop>)
    ensures r == Vulns(py, data)
  {
    if !data.Obj? {
      return Err(BadShape);
    }
    var entries: seq<Entry> := [];
    var advisories := Get(data.fields, "advisories");
    if advisories.Obj? {
      for i := 0 to |advisories.fields|
        invariant FromAdvisories(py, advisories.fields[..i]) == Ok(entries)
      {
        assert advisories.fields[..i + 1][..i] == advisories.fields[..i];
        var e := FromAdvisory(py, advisories.fields[i].1);
        if e.Err? {
          AdvisoriesStop(py, advisories.fields, i + 1);
          return Err(BadShape);
        }
        entries := entries + [e.value];
      }
      assert advisories.fields[..|advisories.fields|] == advisories.fields;
    }
    var vulnerabilities := Get(data.fields, "vulnerabilities");
    if vulnerabilities.Obj? {
      var found: seq<Entry> := [];
      for i := 0 to |vulnerabilities.fields|
        invariant FromVulnerabilities(vulnerabilities.fields[..i]) == Ok(found)
      {
        assert vulnerabilities.fields[..i + 1][..i] == vulnerabilities.fields[..i];
        var more := VulnEntries(vulnerabilities.fields[i].0, vulnerabilities.fields[i].1);
        if more.Err? {
          VulnerabilitiesStop(vulnerabilities.fields, i + 1);
          return Err(BadShape);
        }
        found := found + more.value;
      }
      assert vulnerabilities.fields[..|vulnerabilities.fields|] == vulnerabilities.fields;
      entries := entries + found;
    } else {
      assert entries + [] == entries;
    }
    return Ok(entries);
  }

  /** One vulnerability: its `via` list walked item by item. */
  method VulnEntries(name: string, vuln: Json) returns (r: Result<seq<Entry>, Stop>)
    ensures r == FromVulnerability(name, vuln)
  {
    if !vuln.Obj? {
      return Err(BadShape);
    }
    var severity, via := Get(vuln.fields, "severity"), Get(vuln.fields, "via");
    var pairs: seq<(Json, Json)> := [];
    if via.Arr? {
      for i := 0 to |via.items|
        invariant pairs == ViaPairs(via.items[..i])
      {
        assert via.items[..i + 1][..i] == via.items[..i];
        var item := via.items[i];
        if item.Obj? {
          pairs := pairs + [(ViaAdvisory(item.fields), ViaTitle(item.fields))];
        } else if item.Str? {
          pairs := pairs + [(item, item)];
        }
      }
      assert via.items[..|via.items|] == via.items;
    } else if via.Str? {
      pairs := pairs + [(via, via)];
      assert [via][..0] == [];
      assert ViaPairs([via]) == pairs;
    }
    if exists i :: 0 <= i < |pairs| && Truthy(pairs[i].1) && !pairs[i].1.Str? {
      return Err(BadShape);
    }
    var entries: seq<Entry> := [];
    for i := 0 to |pairs|
      invariant entries == EntriesOf(name, severity, pairs[..i])
    {
      assert pairs[..i + 1][..i] == pairs[..i];
      if Truthy(pairs[i].0) {
        entries := entries + [Entry(Str(name), severity, pairs[i].0)];
      }
    }
    assert pairs[..|pairs|] == pairs;
    return Ok(entries);
  }

  lemma {:induction false} AdvisoriesStop(py: Py, fields: Fields, i: nat)
    requires i <= |fields| && FromAdvisories(py, fields[..i]).Err?
    ensures FromAdvisories(py, fields) == Err(BadShape)
    decreases |fields| - i
  {
    if i == |fields| {
      assert fields[..i] == fields;
      AdvisoriesBadShape(py, fields);
    } else {
      assert fields[..i + 1][..i] == fields[..i];
      AdvisoriesStop(py, fields, i + 1);
    }
  }

  lemma {:induction false} AdvisoriesBadShape(py: Py, fields: Fields)
    requires FromAdvisories(py, fields).Err?
    ensures FromAdvisories(py, fields) == Err(BadShape)
  {
    var n := |fields| - 1;
    if FromAdvisories(py, fields[..n]).Err? { AdvisoriesBadShape(py, fields[..n]); }
  }

  lemma {:induction false} VulnerabilitiesStop(fields: Fields, i: nat)
    requires i <= |fields| && FromVulnerabilities(fields[..i]).Err?
    ensures FromVulnerabilities(fields) == Err(BadShape)
    decreases |fields| - i
  {
    if i == |fields| {
      assert fields[..i] == fields;
      VulnerabilitiesBadShape(fields);
    } else {
      assert fields[..i + 1][..i] == fields[..i];
      VulnerabilitiesStop(fields, i + 1);
    }
  }

  lemma {:induction false} VulnerabilitiesBadShape(fields: Fields)
    requires FromVulnerabilities(fields).Err?
    ensures FromVulnerabilities(fields) == Err(BadShape)
  {
    var n := |fields| - 1;
    if FromVulnerabilities(fields[..n]).Err? { VulnerabilitiesBadShape(fields[..n]); }
  }

  // Deciding ------------------------------------------------------------------

  /** `normalize_severity`; what is truthy must be a string. */
  function NormalSeverity(py: Py, j: Json): (r: Result<string, Stop>) {
    if !Truthy(j) then Ok(py.lower(Strip("")))
    else if j.Str? then Ok(py.lower(Strip(j.s)))
    else Err(BadShape)
  }

  function NormalPackage(py: Py, j: Json): (r: string) {
    if j.Null? then "" else Strip(Shown(py, j))
  }

  function NormalAdvisory(py: Py, j: Json): (r: string) {
    if j.Null? then "" else py.lower(Strip(Shown(py, j)))
  }

  predicate High(severity: string) {
    severity == "high" || severity == "critical"
  }

  type Key = (string, string)

  /** What the gate looks at in an entry. */
  datatype Finding = Finding(severity: string, named: bool, key: Key)

  function FindingOf(py: Py, e: Entry): (r: Result<Finding, Stop>) {
    match NormalSeverity(py, e.severity)
    case Err(x) => Err(x)
    case Ok(s) => Ok(Finding(s, Truthy(e.name), (NormalPackage(py, e.name), NormalAdvisory(py, e.advisory))))
  }

  predicate AllFound(py: Py, entries: seq<Entry>) {
    forall i :: 0 <= i < |entries| ==> FindingOf(py, entries[i]).Ok?
  }

  function Findings(py: Py, entries: seq<Entry>): (r: seq<Finding>)
    requires AllFound(py, entries)
    ensures |r| == |entries| && forall i :: 0 <= i < |r| ==> FindingOf(py, entries[i]) == Ok(r[i])
  {
    seq(|entries|, i requires 0 <= i < |entries| => FindingOf(py, entries[i]).value)
  }

  predicate Filled(e: Record) {
    forall k :: k in REQUIRED_FIELDS ==> k in e && e[k] != ""
  }

  function Field(e: Record, name: string): (r: string) {
    if name in e then e[name] else ""
  }

  function KeyOf(py: Py, e: Record): (r: Key) {
    (Strip(Field(e, "package")), py.lower(Strip(Field(e, "advisory"))))
  }

  function SeverityOf(py: Py, e: Record): (r: string) {
    py.lower(Strip(Field(e, "severity")))
  }

  function ExpiryOf(py: Py, e: Record): (r: Option<int>) {
    py.date(Field(e, "expires_on"))
  }

  /** A complete exception: all fields given, a date, and a package and an advisory that are not blank. */
  predicate Complete(py: Py, e: Record) {
    Filled(e) && ExpiryOf(py, e).Some? && KeyOf(py, e).0 != "" && KeyOf(py, e).1 != ""
  }

  ghost predicate ListOk(py: Py, es: seq<Record>) {
    && (forall i :: 0 <= i < |es| ==> Complete(py, es[i]))
    && forall i, j :: 0 <= i < j < |es| ==> KeyOf(py, es[i]) != KeyOf(py, es[j])
  }

  predicate Relevant(f: Finding) {
    High(f.severity) && f.named
  }

  /** Exception `e` is for `f` and has not expired. */
  predicate Covers(py: Py, e: Record, f: Finding, today: int) {
    KeyOf(py, e) == f.key && ExpiryOf(py, e).Some? && today <= ExpiryOf(py, e).value
  }

  /** An exception whose severity is blank is for any severity. */
  predicate Matches(py: Py, e: Record, f: Finding) {
    SeverityOf(py, e) == "" || SeverityOf(py, e) == f.severity
  }

  /** No relevant finding before i has its key. */
  ghost predicate FirstWithKey(fs: seq<Finding>, i: nat)
    requires i < |fs|
  {
    forall j :: 0 <= j < i && Relevant(fs[j]) ==> fs[j].key != fs[i].key
  }

  ghost predicate FindingPasses(py: Py, es: seq<Record>, fs: seq<Finding>, today: int, i: nat)
    requires i < |fs|
  {
    Relevant(fs[i]) ==>
      && fs[i].key.1 != ""
      && exists e :: e in es && Covers(py, e, fs[i], today) && (FirstWithKey(fs, i) ==> Matches(py, e, fs[i]))
  }

  /** The policy: a proper list of exceptions, and for each named high or critical finding one that has
      not expired; its severity must be that of the first finding with the key. */
  ghost predicate Policy(py: Py, es: seq<Record>, fs: seq<Finding>, today: int) {
    ListOk(py, es) && forall i :: 0 <= i < |fs| ==> FindingPasses(py, es, fs, today, i)
  }

  datatype Indexed = Indexed(severity: string, expires: int)

  datatype Problem = MissingFields(exception: nat) | BadDate(exception: nat) | BlankKey(exception: nat) | Duplicate(exception: nat)
                   | NoAdvisory(entry: nat) | NoException(entry: nat) | SeverityMismatch(entry: nat) | Expired(entry: nat)

  /** What the index keeps of an exception. */
  function ListedAs(py: Py, e: Record): (r: Indexed)
    requires Complete(py, e)
  {
    Indexed(SeverityOf(py, e), ExpiryOf(py, e).value)
  }

  /** The index of a proper list: every exception under its key. */
  ghost predicate Indexes(py: Py, es: seq<Record>, index: map<Key, Indexed>) {
    && (forall e :: e in es && Complete(py, e) ==> KeyOf(py, e) in index)
    && forall k :: k in index ==> exists e :: e in es && Complete(py, e) && KeyOf(py, e) == k && index[k] == ListedAs(py, e)
  }

  method IndexExceptions(py: Py, es: seq<Record>) returns (index: map<Key, Indexed>, problems: seq<Problem>)
    ensures problems == [] <==> ListOk(py, es)
    ensures Indexes(py, es, index)
  {
    hide ListOk, Indexes, Filled, KeyOf, SeverityOf, ExpiryOf;
    index, problems := map[], [];
    NothingListed(py);
    for i := 0 to |es|
      invariant problems == [] <==> ListOk(py, es[..i])
      invariant Indexes(py, es[..i], index)
    {
      var e := es[i];
      NextIndexed(py, es[..i], index, e);
      assert es[..i + 1] == es[..i] + [e];
      if !Filled(e) {
        problems := problems + [MissingFields(i)];
        continue;
      }
      var expires := ExpiryOf(py, e);
      if expires.None? {
        problems := problems + [BadDate(i)];
        continue;
      }
      var key := KeyOf(py, e);
      if key.0 == "" || key.1 == "" {
        problems := problems + [BlankKey(i)];
        continue;
      }
      if key in index {
        problems := problems + [Duplicate(i)];
        continue;
      }
      index := index[key := Indexed(SeverityOf(py, e), expires.value)];
    }
    assert es[..|es|] == es;
  }

  lemma NothingListed(py: Py)
    ensures ListOk(py, []) && Indexes(py, [], map[])
  {
  }

  /** One exception more: it goes into the index unless it is not complete or its key is taken. */
  lemma NextIndexed(py: Py, es: seq<Record>, index: map<Key, Indexed>, e: Record)
    requires Indexes(py, es, index)
    ensures ListOk(py, es + [e]) <==> ListOk(py, es) && Complete(py, e) && KeyOf(py, e) !in index
    ensures !Complete(py, e) || KeyOf(py, e) in index ==> Indexes(py, es + [e], index)
    ensures Complete(py, e) && KeyOf(py, e) !in index ==>
      Indexes(py, es + [e], index[KeyOf(py, e) := Indexed(SeverityOf(py, e), ExpiryOf(py, e).value)])
  {
    hide Complete, KeyOf, SeverityOf, ExpiryOf;
    NextListOk(py, es, e);
    if ListOk(py, es) {
      forall x | x in es ensures Complete(py, x) {
        var i :| 0 <= i < |es| && es[i] == x;
      }
      assert KeyOf(py, e) in index <==> exists x :: x in es && KeyOf(py, x) == KeyOf(py, e);
    }
    hide ListOk;
    if !Complete(py, e) || KeyOf(py, e) in index {
      IndexKept(py, es, index, e, index);
    } else {
      var info := ListedAs(py, e);
      IndexKept(py, es, index, e, index[KeyOf(py, e) := info]);
    }
  }

  lemma IndexKept(py: Py, es: seq<Record>, index: map<Key, Indexed>, e: Record, more: map<Key, Indexed>)
    requires Indexes(py, es, index)
    requires if !Complete(py, e) || KeyOf(py, e) in index then more == index else more == index[KeyOf(py, e) := ListedAs(py, e)]
    ensures Indexes(py, es + [e], more)
  {
    hide Complete, KeyOf, SeverityOf, ExpiryOf;
    forall k | k in more
      ensures exists x :: x in es + [e] && Complete(py, x) && KeyOf(py, x) == k && more[k] == ListedAs(py, x)
    {
      if k in index {
        var x :| x in es && Complete(py, x) && KeyOf(py, x) == k && index[k] == ListedAs(py, x);
        assert x in es + [e];
      } else {
        assert e in es + [e];
      }
    }
    assert forall x :: x in es + [e] && Complete(py, x) ==> KeyOf(py, x) in more;
  }

  lemma NextListOk(py: Py, es: seq<Record>, e: Record)
    ensures ListOk(py, es + [e]) <==> ListOk(py, es) && Complete(py, e) && forall x :: x in es ==> KeyOf(py, x) != KeyOf(py, e)
  {
    hide Complete, KeyOf;
    var more := es + [e];
    assert more[|es|] == e;
    if ListOk(py, more) {
      forall i | 0 <= i < |es| ensures Complete(py, es[i]) && KeyOf(py, es[i]) != KeyOf(py, e) {
        assert more[i] == es[i];
      }
      forall i, j | 0 <= i < j < |es| ensures KeyOf(py, es[i]) != KeyOf(py, es[j]) {
        assert more[i] == es[i] && more[j] == es[j];
      }
    }
  }

  /** The gate: 0 when it lets the build go on. */
  method Decide(py: Py, es: seq<Record>, entries: seq<Entry>, today: int) returns (r: Result<nat, Stop>)
    ensures r.Ok? <==> AllFound(py, entries)
    ensures r.Ok? ==> (r.value == 0 || r.value == 1) && (r.value == 0 <==> Policy(py, es, Findings(py, entries), today))
  {
    hide Policy, Findings, FindingOf, AllFound, SeenKeys, Indexes;
    var index, problems := IndexExceptions(py, es);
    var seen: set<Key> := {};
    NothingFound(py, es, today);
    for i := 0 to |entries|
      invariant AllFound(py, entries[..i])
      invariant seen == SeenKeys(Findings(py, entries[..i]))
      invariant problems == [] <==> Policy(py, es, Findings(py, entries[..i]), today)
    {
      NextFound(py, entries, i);
      var found := FindingOf(py, entries[i]);
      if found.Err? {
        return Err(BadShape);
      }
      var f := found.value;
      Judged(py, es, index, Findings(py, entries[..i]), f, today);
      NextSeen(Findings(py, entries[..i]), f);
      if !High(f.severity) || !f.named {
        continue;
      }
      if f.key.1 == "" {
        problems := problems + [NoAdvisory(i)];
        continue;
      }
      if f.key in seen {
        continue;
      }
      seen := seen + {f.key};
      if f.key !in index {
        problems := problems + [NoException(i)];
        continue;
      }
      var exc := index[f.key];
      if exc.severity != "" && exc.severity != f.severity {
        problems := problems + [SeverityMismatch(i)];
      }
      if exc.expires < today {
        problems := problems + [Expired(i)];
      }
    }
    assert entries[..|entries|] == entries;
    return Ok(if problems != [] then 1 else 0);
  }

  lemma NothingFound(py: Py, es: seq<Record>, today: int)
    ensures AllFound(py, []) && Findings(py, []) == [] && SeenKeys([]) == {}
    ensures Policy(py, es, [], today) <==> ListOk(py, es)
  {
  }

  lemma NextFound(py: Py, entries: seq<Entry>, i: nat)
    requires i < |entries| && AllFound(py, entries[..i])
    ensures FindingOf(py, entries[i]).Err? ==> !AllFound(py, entries)
    ensures FindingOf(py, entries[i]).Ok? ==> AllFound(py, entries[..i + 1])
    ensures FindingOf(py, entries[i]).Ok? ==> Findings(py, entries[..i + 1]) == Findings(py, entries[..i]) + [FindingOf(py, entries[i]).value]
  {
    hide FindingOf;
    var a, b := entries[..i], entries[..i + 1];
    assert forall j :: 0 <= j < i ==> b[j] == a[j];
    if FindingOf(py, entries[i]).Ok? {
      assert AllFound(py, b);
      assert Findings(py, b) == Findings(py, a) + [FindingOf(py, entries[i]).value];
    }
  }

  /** One finding more, judged by the index and the keys seen. */
  lemma Judged(py: Py, es: seq<Record>, index: map<Key, Indexed>, fs: seq<Finding>, f: Finding, today: int)
    requires Indexes(py, es, index)
    ensures Policy(py, es, fs + [f], today) <==>
      && Policy(py, es, fs, today)
      && (Relevant(f) ==>
            && f.key.1 != ""
            && (f.key in SeenKeys(fs) ||
                (f.key in index && (index[f.key].severity == "" || index[f.key].severity == f.severity) && today <= index[f.key].expires)))
  {
    NextPolicy(py, es, fs, f, today);
    hide FindingPasses, SeenKeys, Indexes, LastPasses;
    if Policy(py, es, fs, today) {
      if !Relevant(f) || f.key.1 == "" {
        PassesUnless(py, es, f, NewKey(fs, f), today);
      } else if f.key in SeenKeys(fs) {
        SeenPasses(py, es, fs, f, today);
      } else {
        UnseenPasses(py, es, index, fs, f, today);
      }
    }
  }

  lemma PassesUnless(py: Py, es: seq<Record>, f: Finding, first: bool, today: int)
    requires !Relevant(f) || f.key.1 == ""
    ensures LastPasses(py, es, f, first, today) <==> !Relevant(f)
  {
  }

  /** The keys of the relevant findings so far, those without an advisory apart. */
  function SeenKeys(fs: seq<Finding>): (r: set<Key>) {
    set f | f in fs && Relevant(f) && f.key.1 != "" :: f.key
  }

  lemma NextSeen(fs: seq<Finding>, f: Finding)
    ensures SeenKeys(fs + [f]) == if Relevant(f) && f.key.1 != "" then SeenKeys(fs) + {f.key} else SeenKeys(fs)
  {
  }

  ghost predicate LastPasses(py: Py, es: seq<Record>, f: Finding, first: bool, today: int) {
    Relevant(f) ==>
      && f.key.1 != ""
      && exists e :: e in es && Covers(py, e, f, today) && (first ==> Matches(py, e, f))
  }

  ghost predicate NewKey(fs: seq<Finding>, f: Finding) {
    forall g :: g in fs && Relevant(g) ==> g.key != f.key
  }

  lemma NextPolicy(py: Py, es: seq<Record>, fs: seq<Finding>, f: Finding, today: int)
    ensures Policy(py, es, fs + [f], today) <==> Policy(py, es, fs, today) && LastPasses(py, es, f, NewKey(fs, f), today)
  {
    hide ListOk, Covers, Matches;
    var more := fs + [f];
    forall i | 0 <= i < |fs| ensures FindingPasses(py, es, more, today, i) <==> FindingPasses(py, es, fs, today, i) {
      assert more[i] == fs[i];
      assert FirstWithKey(more, i) <==> FirstWithKey(fs, i) by {
        assert forall j :: 0 <= j < i ==> more[j] == fs[j];
      }
    }
    assert more[|fs|] == f;
    assert FirstWithKey(more, |fs|) <==> NewKey(fs, f) by {
      assert forall j :: 0 <= j < |fs| ==> more[j] == fs[j];
    }
    assert FindingPasses(py, es, more, today, |fs|) <==> LastPasses(py, es, f, NewKey(fs, f), today);
  }

  lemma SeenPasses(py: Py, es: seq<Record>, fs: seq<Finding>, f: Finding, today: int)
    requires Policy(py, es, fs, today) && Relevant(f) && f.key in SeenKeys(fs)
    ensures LastPasses(py, es, f, NewKey(fs, f), today)
  {
    var g :| g in fs && Relevant(g) && g.key == f.key;
    var i :| 0 <= i < |fs| && fs[i] == g;
    assert FindingPasses(py, es, fs, today, i);
    var e :| e in es && Covers(py, e, fs[i], today);
    assert Covers(py, e, f, today);
    assert !NewKey(fs, f);
  }

  lemma UnseenPasses(py: Py, es: seq<Record>, index: map<Key, Indexed>, fs: seq<Finding>, f: Finding, today: int)
    requires Indexes(py, es, index) && ListOk(py, es) && Relevant(f) && f.key.1 != "" && f.key !in SeenKeys(fs)
    ensures LastPasses(py, es, f, NewKey(fs, f), today) <==>
      f.key in index && (index[f.key].severity == "" || index[f.key].severity == f.severity) && today <= index[f.key].expires
  {
    assert NewKey(fs, f);
    if f.key in index {
      OneException(py, es, index, f);
      OnlyOneCovers(py, es, index[f.key], f, today);
    } else {
      hide KeyOf, SeverityOf, ExpiryOf, Relevant, Complete;
      forall e | e in es ensures KeyOf(py, e) != f.key {
        var i :| 0 <= i < |es| && es[i] == e;
        assert Complete(py, es[i]);
      }
      hide Indexes, NewKey, SeenKeys;
      assert !LastPasses(py, es, f, true, today);
    }
  }

  lemma OnlyOneCovers(py: Py, es: seq<Record>, exc: Indexed, f: Finding, today: int)
    requires Relevant(f) && f.key.1 != ""
    requires forall e :: e in es && KeyOf(py, e) == f.key ==> ExpiryOf(py, e) == Some(exc.expires) && SeverityOf(py, e) == exc.severity
    requires exists e :: e in es && KeyOf(py, e) == f.key
    ensures LastPasses(py, es, f, true, today) <==> (exc.severity == "" || exc.severity == f.severity) && today <= exc.expires
  {
    hide KeyOf, SeverityOf, ExpiryOf, Relevant;
    var e :| e in es && KeyOf(py, e) == f.key;
    assert Covers(py, e, f, today) <==> today <= exc.expires;
    assert Matches(py, e, f) <==> exc.severity == "" || exc.severity == f.severity;
  }

  /** In a proper list the indexed exception is the only one for its key. */
  lemma OneException(py: Py, es: seq<Record>, index: map<Key, Indexed>, f: Finding)
    requires ListOk(py, es) && Indexes(py, es, index) && f.key in index
    ensures forall e :: e in es && KeyOf(py, e) == f.key ==>
      ExpiryOf(py, e) == Some(index[f.key].expires) && SeverityOf(py, e) == index[f.key].severity
    ensures exists e :: e in es && KeyOf(py, e) == f.key
  {
    hide KeyOf, SeverityOf, ExpiryOf, Filled;
    var x :| x in es && Complete(py, x) && KeyOf(py, x) == f.key && index[f.key] == ListedAs(py, x);
    forall e | e in es && KeyOf(py, e) == f.key ensures e == x {
      var i :| 0 <= i < |es| && es[i] == e;
      var j :| 0 <= j < |es| && es[j] == x;
      assert i == j;
    }
  }

  /** The whole tool on the texts of its two files. */
  method Run(py: Py, exceptions: string, audit: Json, today: int) returns (r: Result<nat, Stop>)
    ensures r == Ok(0) <==> Accepts(py, exceptions, audit, today)
    ensures r.Ok? ==> r.value <= 1
  {
    var parsed := ParseExceptions(exceptions);
    if parsed.Err? {
      return Err(Unparsed(parsed.error));
    }
    var entries := IterVulns(py, audit);
    if entries.Err? {
      return Err(entries.error);
    }
    r := Decide(py, parsed.value, entries.value, today);
  }

  /** The list can be parsed, the report read, and the policy holds. */
  ghost predicate Accepts(py: Py, exceptions: string, audit: Json, today: int) {
    var es, entries := Parse(Lines(exceptions)), Vulns(py, audit);
    && es.Ok? && entries.Ok? && AllFound(py, entries.value)
    && Policy(py, es.value, Findings(py, entries.value), today)
  }
}
