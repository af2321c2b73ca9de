/**
 Laws of the audit gate: which reports it can read, what it collects from them, and how its verdict
 depends on the day and on the order of the entries.
 */
module AuditLaws {
  import opened Collections
  import opened AuditText
  import opened AuditParser
  import opened AuditParserLaws
  import opened AuditGate

  // Collecting ----------------------------------------------------------------

  /** An advisory the tool can read: an object in whose `cves` it finds a list or a string, if it has to look. */
  predicate ReadableAdvisory(j: Json) {
    j.Obj? && (!Truthy(Get(j.fields, "github_advisory_id")) && !Truthy(Get(j.fields, "url")) && Truthy(Get(j.fields, "cves")) ==>
      Get(j.fields, "cves").Arr? || Get(j.fields, "cves").Str?)
  }

  /** The first truthy candidate is taken; the last one if there is none. */
  ghost predicate Picks(cands: seq<Json>, j: Json) {
    exists i :: 0 <= i < |cands| && j == cands[i] && (Truthy(j) || i == |cands| - 1) && forall k :: 0 <= k < i ==> !Truthy(cands[k])
  }

  /** What an advisory can be identified by, in the order of preference. */
  function AdvisoryIds(py: Py, a: Fields): (r: seq<Json>) {
    var cves, id := Get(a, "cves"), Get(a, "id");
    [Get(a, "github_advisory_id"), Get(a, "url"),
     if cves.Arr? && cves.items != [] then cves.items[0] else if cves.Str? && cves.s != "" then Str(cves.s[..1]) else Null,
     if id.Null? then Null else Str(Shown(py, id)),
     Get(a, "title"), Get(a, "advisory"), Get(a, "overview")]
  }

  function ViaIds(v: Fields): (r: seq<Json>) {
    [Get(v, "github_advisory_id"), Get(v, "url"), Get(v, "source"), Get(v, "title"), Get(v, "name")]
  }

  function ViaTitles(v: Fields): (r: seq<Json>) {
    [Get(v, "title"), Get(v, "url"), Get(v, "advisory"), Get(v, "source")]
  }

  /** The entry of an advisory. */
  ghost predicate AdvisoryEntry(py: Py, a: Fields, x: Entry) {
    Picks([Get(a, "module_name"), Get(a, "name")], x.name) && x.severity == Get(a, "severity") && Picks(AdvisoryIds(py, a), x.advisory)
  }

  /** What is falsy. */
  lemma TruthyExact(j: Json)
    ensures !Truthy(j) <==> j in {Null, Flag(false), Num(0.0), Str(""), Arr([]), Obj([])}
  {
  }

  lemma PicksAt(cands: seq<Json>, i: nat)
    requires i < |cands| && (Truthy(cands[i]) || i == |cands| - 1) && forall k :: 0 <= k < i ==> !Truthy(cands[k])
    ensures Picks(cands, cands[i])
  {
  }

  lemma PicksOnce(cands: seq<Json>, a: Json, b: Json)
    requires Picks(cands, a) && Picks(cands, b)
    ensures a == b
  {
  }

  lemma ViaPicks(v: Fields)
    ensures Picks(ViaIds(v), ViaAdvisory(v)) && Picks(ViaTitles(v), ViaTitle(v))
  {
    hide Get, Truthy;
    var c, d := ViaIds(v), ViaTitles(v);
    PicksAt(c, if Truthy(c[0]) then 0 else if Truthy(c[1]) then 1 else if Truthy(c[2]) then 2 else if Truthy(c[3]) then 3 else 4);
    PicksAt(d, if Truthy(d[0]) then 0 else if Truthy(d[1]) then 1 else if Truthy(d[2]) then 2 else 3);
    hide Picks;
  }

  /** The tool's choice for an advisory it can read. */
  lemma AdvisoryPicks(py: Py, j: Json)
    ensures FromAdvisory(py, j).Ok? <==> ReadableAdvisory(j)
    ensures FromAdvisory(py, j).Ok? ==> AdvisoryEntry(py, j.fields, FromAdvisory(py, j).value)
  {
    AdvisoryOk(py, j);
    if ReadableAdvisory(j) {
      var a := j.fields;
      var c, d := AdvisoryIds(py, a), [Get(a, "module_name"), Get(a, "name")];
      PicksAt(c, if Truthy(c[0]) then 0 else if Truthy(c[1]) then 1 else if Truthy(c[2]) then 2 else if Truthy(c[3]) then 3
                 else if Truthy(c[4]) then 4 else if Truthy(c[5]) then 5 else 6);
      PicksAt(d, if Truthy(d[0]) then 0 else 1);
      hide Picks, Get;
    }
  }

  /** `item` is in the `via` of a vulnerability: a member of the list, or the string. */
  ghost predicate InVia(vuln: Fields, item: Json) {
    var via := Get(vuln, "via");
    (via.Arr? && item in via.items) || (via.Str? && item == via)
  }

  /** A vulnerability the tool can read: an object in whose `via` every object has a string for its title, or nothing. */
  ghost predicate ReadableVulnerability(j: Json) {
    j.Obj? && forall item, t :: InVia(j.fields, item) && item.Obj? && Picks(ViaTitles(item.fields), t) ==> !Truthy(t) || t.Str?
  }

  ghost predicate Readable(data: Json) {
    && data.Obj?
    && (Get(data.fields, "advisories").Obj? ==> forall p :: p in Get(data.fields, "advisories").fields ==> ReadableAdvisory(p.1))
    && (Get(data.fields, "vulnerabilities").Obj? ==> forall p :: p in Get(data.fields, "vulnerabilities").fields ==> ReadableVulnerability(p.1))
  }

  /** The advisory and title of a member of a `via` list. */
  predicate PairOf(item: Json, p: (Json, Json)) {
    (item.Obj? && p == (ViaAdvisory(item.fields), ViaTitle(item.fields))) || (item.Str? && p == (item, item))
  }

  lemma {:induction false} ViaPairsHas(items: seq<Json>, p: (Json, Json))
    ensures p in ViaPairs(items) <==> exists item :: item in items && PairOf(item, p)
  {
    hide ViaAdvisory, ViaTitle;
    if items != [] {
      var n := |items| - 1;
      ViaPairsHas(items[..n], p);
      assert items == items[..n] + [items[n]];
      assert p in ViaPairs(items) <==> p in ViaPairs(items[..n]) || PairOf(items[n], p);
      if item :| item in items && PairOf(item, p) { assert item in items[..n] || item == items[n]; }
    }
  }

  lemma JoinsExact(items: seq<Json>)
    ensures Joins(ViaPairs(items)) <==> forall item, t :: item in items && item.Obj? && Picks(ViaTitles(item.fields), t) ==> !Truthy(t) || t.Str?
  {
    hide ViaPairs, ViaAdvisory, ViaTitle, ViaTitles, Picks;
    var pairs := ViaPairs(items);
    if Joins(pairs) {
      forall item, t | item in items && item.Obj? && Picks(ViaTitles(item.fields), t) ensures !Truthy(t) || t.Str? {
        var p := (ViaAdvisory(item.fields), ViaTitle(item.fields));
        ViaPicks(item.fields);
        PicksOnce(ViaTitles(item.fields), t, p.1);
        assert PairOf(item, p);
        ViaPairsHas(items, p);
        var i :| 0 <= i < |pairs| && pairs[i] == p;
      }
    } else {
      var i :| 0 <= i < |pairs| && Truthy(pairs[i].1) && !pairs[i].1.Str?;
      ViaPairsHas(items, pairs[i]);
      var item :| item in items && PairOf(item, pairs[i]);
      ViaPicks(item.fields);
    }
  }

  lemma {:induction false} AdvisoriesOk(py: Py, fields: Fields)
    ensures FromAdvisories(py, fields).Ok? <==> forall p :: p in fields ==> ReadableAdvisory(p.1)
    ensures FromAdvisories(py, fields).Ok? ==>
      |FromAdvisories(py, fields).value| == |fields|
      && forall i :: 0 <= i < |fields| ==> ReadableAdvisory(fields[i].1) && AdvisoryEntry(py, fields[i].1.fields, FromAdvisories(py, fields).value[i])
  {
    if fields != [] {
      var n := |fields| - 1;
      AdvisoriesOk(py, fields[..n]);
      AdvisoryPicks(py, fields[n].1);
      IsAdvisory(fields[n].1);
      hide ReadableAdvisory, FromAdvisory, AdvisoryEntry;
      assert fields == fields[..n] + [fields[n]];
    }
  }

  lemma IsAdvisory(j: Json)
    ensures ReadableAdvisory(j) ==> j.Obj?
  {
  }

  lemma AdvisoryOk(py: Py, j: Json)
    ensures FromAdvisory(py, j).Ok? <==> ReadableAdvisory(j)
  {
    hide Get;
  }

  lemma {:induction false} VulnerabilitiesOk(fields: Fields)
    ensures FromVulnerabilities(fields).Ok? <==> forall p :: p in fields ==> ReadableVulnerability(p.1)
    ensures FromVulnerabilities(fields).Ok? ==>
      forall x :: x in FromVulnerabilities(fields).value <==>
        exists p :: p in fields && FromVulnerability(p.0, p.1).Ok? && x in FromVulnerability(p.0, p.1).value
  {
    if fields != [] {
      var n := |fields| - 1;
      VulnerabilitiesOk(fields[..n]);
      VulnerabilityOk(fields[n].0, fields[n].1);
      hide ReadableVulnerability, FromVulnerability;
      assert fields == fields[..n] + [fields[n]];
    }
  }

  lemma VulnerabilityOk(name: string, j: Json)
    ensures FromVulnerability(name, j).Ok? <==> ReadableVulnerability(j)
  {
    hide Joins, ViaPairs, Get;
    if j.Obj? { JoinsExact(ViaItems(Get(j.fields, "via"))); }
  }

  lemma {:induction false} EntriesHas(name: string, severity: Json, pairs: seq<(Json, Json)>, x: Entry)
    ensures x in EntriesOf(name, severity, pairs) <==>
      exists p :: p in pairs && Truthy(p.0) && x == Entry(Str(name), severity, p.0)
  {
    if pairs != [] {
      var n := |pairs| - 1;
      EntriesHas(name, severity, pairs[..n], x);
      assert pairs == pairs[..n] + [pairs[n]];
    }
  }

  /** The entry that `item` of a vulnerability's `via` stands for. */
  ghost predicate Names(item: Json, name: string, vuln: Fields, x: Entry) {
    && x.name == Str(name) && x.severity == Get(vuln, "severity") && Truthy(x.advisory)
    && ((item.Obj? && Picks(ViaIds(item.fields), x.advisory)) || (item.Str? && x.advisory == item))
  }

  lemma VulnerabilityHas(name: string, j: Json, x: Entry)
    requires FromVulnerability(name, j).Ok?
    ensures x in FromVulnerability(name, j).value <==> exists item :: InVia(j.fields, item) && Names(item, name, j.fields, x)
  {
    hide Get, ViaPairs, EntriesOf, Joins, ViaAdvisory, ViaTitle, Picks, ViaIds;
    var items := ViaItems(Get(j.fields, "via"));
    EntriesHas(name, Get(j.fields, "severity"), ViaPairs(items), x);
    forall p ensures p in ViaPairs(items) <==> exists item :: item in items && PairOf(item, p) {
      ViaPairsHas(items, p);
    }
    forall item ensures InVia(j.fields, item) <==> item in items {}
    hide ViaItems, InVia;
    if p :| p in ViaPairs(items) && Truthy(p.0) && x == Entry(Str(name), Get(j.fields, "severity"), p.0) {
      var item :| item in items && PairOf(item, p);
      if item.Obj? { ViaPicks(item.fields); }
      assert Names(item, name, j.fields, x);
    }
    if item :| item in items && Names(item, name, j.fields, x) {
      var p := if item.Obj? then (ViaAdvisory(item.fields), ViaTitle(item.fields)) else (item, item);
      if item.Obj? {
        ViaPicks(item.fields);
        PicksOnce(ViaIds(item.fields), p.0, x.advisory);
      }
      assert PairOf(item, p);
      assert p in ViaPairs(items);
    }
  }

  /** The report is read exactly when it is readable; and then an entry is yielded exactly for each
      advisory and for each member of a `via` list that has an advisory. */
  lemma VulnsExact(py: Py, data: Json)
    ensures Vulns(py, data).Ok? <==> Readable(data)
    ensures Vulns(py, data).Ok? ==> forall x :: x in Vulns(py, data).value <==>
      || (Get(data.fields, "advisories").Obj? && exists p :: p in Get(data.fields, "advisories").fields && AdvisorySome(py, p.1, x))
      || (Get(data.fields, "vulnerabilities").Obj? && exists p :: p in Get(data.fields, "vulnerabilities").fields && NamesSome(p.0, p.1, x))
  {
    hide Get, FromAdvisories, FromVulnerabilities, ReadableAdvisory, ReadableVulnerability, FromAdvisory, FromVulnerability, InVia, Names, AdvisorySome, NamesSome;
    if data.Obj? {
      var a, v := Get(data.fields, "advisories"), Get(data.fields, "vulnerabilities");
      if a.Obj? { AdvisoriesOk(py, a.fields); }
      if v.Obj? { VulnerabilitiesOk(v.fields); }
      if Readable(data) {
        if a.Obj? {
          forall x ensures x in FromAdvisories(py, a.fields).value <==> exists p :: p in a.fields && AdvisorySome(py, p.1, x) {
            AdvisoriesHave(py, a.fields, x);
          }
        }
        if v.Obj? {
          forall x ensures x in FromVulnerabilities(v.fields).value <==> exists p :: p in v.fields && NamesSome(p.0, p.1, x) {
            VulnerabilitiesHave(v.fields, x);
          }
        }
      }
    }
  }

  lemma AdvisoriesHave(py: Py, fields: Fields, x: Entry)
    requires FromAdvisories(py, fields).Ok?
    ensures x in FromAdvisories(py, fields).value <==> exists p :: p in fields && AdvisorySome(py, p.1, x)
  {
    AdvisoriesOk(py, fields);
    hide FromAdvisories, ReadableAdvisory, AdvisoryEntry;
    var es := FromAdvisories(py, fields).value;
    if x in es {
      var i :| 0 <= i < |es| && es[i] == x;
      IsAdvisory(fields[i].1);
      assert fields[i] in fields && AdvisorySome(py, fields[i].1, x);
    }
    if p :| p in fields && AdvisorySome(py, p.1, x) {
      var i :| 0 <= i < |fields| && fields[i] == p;
      EntryOnce(py, p.1.fields, x, es[i]);
    }
  }

  lemma EntryOnce(py: Py, a: Fields, x: Entry, y: Entry)
    requires AdvisoryEntry(py, a, x) && AdvisoryEntry(py, a, y)
    ensures x == y
  {
    hide Picks, AdvisoryIds;
    PicksOnce([Get(a, "module_name"), Get(a, "name")], x.name, y.name);
    PicksOnce(AdvisoryIds(py, a), x.advisory, y.advisory);
  }

  lemma VulnerabilitiesHave(fields: Fields, x: Entry)
    requires FromVulnerabilities(fields).Ok?
    ensures x in FromVulnerabilities(fields).value <==> exists p :: p in fields && NamesSome(p.0, p.1, x)
  {
    VulnerabilitiesOk(fields);
    hide FromVulnerabilities, ReadableVulnerability, FromVulnerability, InVia, Names;
    forall p | p in fields ensures FromVulnerability(p.0, p.1).Ok? && (x in FromVulnerability(p.0, p.1).value <==> NamesSome(p.0, p.1, x)) {
      VulnerabilityOk(p.0, p.1);
      IsObject(p.0, p.1);
      VulnerabilityHas(p.0, p.1, x);
    }
  }

  ghost predicate AdvisorySome(py: Py, j: Json, x: Entry) {
    j.Obj? && AdvisoryEntry(py, j.fields, x)
  }

  ghost predicate NamesSome(name: string, vuln: Json, x: Entry) {
    vuln.Obj? && exists item :: InVia(vuln.fields, item) && Names(item, name, vuln.fields, x)
  }

  lemma IsObject(name: string, j: Json)
    ensures FromVulnerability(name, j).Ok? ==> j.Obj?
  {
  }

  // Order -----------------------------------------------------------------------

  /** The entries of a report with these advisories and these vulnerabilities. */
  function Report(py: Py, advisories: Fields, vulnerabilities: Fields): (r: Result<seq<Entry>, Stop>) {
    Vulns(py, Obj([("advisories", Obj(advisories)), ("vulnerabilities", Obj(vulnerabilities))]))
  }

  lemma ReportParts(py: Py, advisories: Fields, vulnerabilities: Fields)
    ensures var a, v := FromAdvisories(py, advisories), FromVulnerabilities(vulnerabilities);
      && (Report(py, advisories, vulnerabilities).Ok? <==> a.Ok? && v.Ok?)
      && (a.Ok? && v.Ok? ==> Report(py, advisories, vulnerabilities) == Ok(a.value + v.value))
  {
    hide FromAdvisories, FromVulnerabilities;
    var fields := [("advisories", Obj(advisories)), ("vulnerabilities", Obj(vulnerabilities))];
    GetOne("vulnerabilities", Obj(vulnerabilities), "vulnerabilities");
    assert fields[1..] == [("vulnerabilities", Obj(vulnerabilities))];
    assert Get(fields, "advisories") == Obj(advisories) && Get(fields, "vulnerabilities") == Obj(vulnerabilities);
  }

  lemma {:induction false} AdvisoriesAppend(py: Py, a: Fields, b: Fields)
    ensures FromAdvisories(py, a + b).Ok? <==> FromAdvisories(py, a).Ok? && FromAdvisories(py, b).Ok?
    ensures FromAdvisories(py, a + b).Ok? ==> FromAdvisories(py, a + b).value == FromAdvisories(py, a).value + FromAdvisories(py, b).value
  {
    hide FromAdvisory;
    if b == [] {
      assert a + b == a;
    } else {
      var n := |b| - 1;
      AdvisoriesAppend(py, a, b[..n]);
      assert (a + b)[..|a + b| - 1] == a + b[..n];
    }
  }

  lemma {:induction false} VulnerabilitiesAppend(a: Fields, b: Fields)
    ensures FromVulnerabilities(a + b).Ok? <==> FromVulnerabilities(a).Ok? && FromVulnerabilities(b).Ok?
    ensures FromVulnerabilities(a + b).Ok? ==> FromVulnerabilities(a + b).value == FromVulnerabilities(a).value + FromVulnerabilities(b).value
  {
    hide FromVulnerability;
    if b == [] {
      assert a + b == a;
    } else {
      var n := |b| - 1;
      VulnerabilitiesAppend(a, b[..n]);
      assert (a + b)[..|a + b| - 1] == a + b[..n];
    }
  }

  /** Entries come in the order of the report: the advisories, then the vulnerabilities, each in theirs. */
  lemma ReportInOrder(py: Py, a: Fields, b: Fields, v: Fields, w: Fields)
    requires Report(py, a + b, v + w).Ok?
    ensures Report(py, a, []).Ok? && Report(py, b, []).Ok? && Report(py, [], v).Ok? && Report(py, [], w).Ok?
    ensures Report(py, a + b, v + w).value
      == Report(py, a, []).value + Report(py, b, []).value + Report(py, [], v).value + Report(py, [], w).value
  {
    hide Report, FromAdvisories, FromVulnerabilities;
    ReportParts(py, a + b, v + w);
    AdvisoriesAppend(py, a, b);
    VulnerabilitiesAppend(v, w);
    ReportParts(py, a, []);
    ReportParts(py, b, []);
    ReportParts(py, [], v);
    ReportParts(py, [], w);
    NoReports(py);
    var x, y, z := FromAdvisories(py, a).value + FromAdvisories(py, b).value, FromVulnerabilities(v).value, FromVulnerabilities(w).value;
    assert x + (y + z) == x + y + z;
  }

  lemma NoReports(py: Py)
    ensures FromAdvisories(py, []) == Ok([]) && FromVulnerabilities([]) == Ok([])
  {
  }

  /** An advisory yields one entry. */
  lemma AdvisoryAlone(py: Py, id: string, a: Fields)
    requires ReadableAdvisory(Obj(a))
    ensures Report(py, [(id, Obj(a))], []).Ok? && |Report(py, [(id, Obj(a))], []).value| == 1
    ensures AdvisoryEntry(py, a, Report(py, [(id, Obj(a))], []).value[0])
  {
    hide Report, FromAdvisory, AdvisoryEntry;
    var one := [(id, Obj(a))];
    ReportParts(py, one, []);
    AdvisoriesOk(py, one);
    NoReports(py);
  }

  /** The entries of a report of one vulnerability with this `via`. */
  function Via(py: Py, name: string, severity: Json, items: seq<Json>): (r: Result<seq<Entry>, Stop>) {
    Report(py, [], [(name, Obj([("severity", severity), ("via", Arr(items))]))])
  }

  lemma ViaReport(py: Py, name: string, severity: Json, items: seq<Json>)
    ensures Via(py, name, severity, items).Ok? <==> Joins(ViaPairs(items))
    ensures Joins(ViaPairs(items)) ==> Via(py, name, severity, items) == Ok(EntriesOf(name, severity, ViaPairs(items)))
  {
    hide Report, Joins, ViaPairs, EntriesOf;
    var fields := [("severity", severity), ("via", Arr(items))];
    var one := [(name, Obj(fields))];
    GetOne("via", Arr(items), "via");
    assert fields[1..] == [("via", Arr(items))];
    assert Get(fields, "severity") == severity && Get(fields, "via") == Arr(items);
    ReportParts(py, [], one);
    NoReports(py);
    assert one[..0] == [];
    if Joins(ViaPairs(items)) {
      assert [] + EntriesOf(name, severity, ViaPairs(items)) == EntriesOf(name, severity, ViaPairs(items));
    }
  }

  lemma {:induction false} ViaPairsAppend(a: seq<Json>, b: seq<Json>)
    ensures ViaPairs(a + b) == ViaPairs(a) + ViaPairs(b)
  {
    hide ViaAdvisory, ViaTitle;
    if b == [] {
      assert a + b == a;
    } else {
      var n := |b| - 1;
      ViaPairsAppend(a, b[..n]);
      assert (a + b)[..|a + b| - 1] == a + b[..n];
    }
  }

  lemma {:induction false} EntriesAppend(name: string, severity: Json, a: seq<(Json, Json)>, b: seq<(Json, Json)>)
    ensures EntriesOf(name, severity, a + b) == EntriesOf(name, severity, a) + EntriesOf(name, severity, b)
  {
    if b == [] {
      assert a + b == a;
    } else {
      var n := |b| - 1;
      EntriesAppend(name, severity, a, b[..n]);
      assert (a + b)[..|a + b| - 1] == a + b[..n];
    }
  }

  lemma JoinsAppend(a: seq<(Json, Json)>, b: seq<(Json, Json)>)
    ensures Joins(a + b) <==> Joins(a) && Joins(b)
  {
    hide Truthy;
    if Joins(a + b) {
      forall i | 0 <= i < |a| ensures Truthy(a[i].1) ==> a[i].1.Str? { assert (a + b)[i] == a[i]; }
      forall i | 0 <= i < |b| ensures Truthy(b[i].1) ==> b[i].1.Str? { assert (a + b)[|a| + i] == b[i]; }
    }
  }

  /** The entries of a vulnerability come in the order of its `via`. */
  lemma ViaInOrder(py: Py, name: string, severity: Json, a: seq<Json>, b: seq<Json>)
    requires Via(py, name, severity, a + b).Ok?
    ensures Via(py, name, severity, a).Ok? && Via(py, name, severity, b).Ok?
    ensures Via(py, name, severity, a + b).value == Via(py, name, severity, a).value + Via(py, name, severity, b).value
  {
    hide Via, Joins, ViaPairs, EntriesOf;
    ViaReport(py, name, severity, a + b);
    ViaReport(py, name, severity, a);
    ViaReport(py, name, severity, b);
    ViaPairsAppend(a, b);
    EntriesAppend(name, severity, ViaPairs(a), ViaPairs(b));
    JoinsAppend(ViaPairs(a), ViaPairs(b));
  }

  /** A member of a `via` yields one entry, or none without an advisory. */
  lemma ItemAlone(py: Py, name: string, severity: Json, item: Json)
    requires Via(py, name, severity, [item]).Ok?
    ensures var es := Via(py, name, severity, [item]).value;
      && (item.Obj? ==> forall id :: Picks(ViaIds(item.fields), id) ==> es == if Truthy(id) then [Entry(Str(name), severity, id)] else [])
      && (item.Str? ==> es == if item.s != "" then [Entry(Str(name), severity, item)] else [])
      && (!item.Obj? && !item.Str? ==> es == [])
  {
    hide Via, Picks, ViaAdvisory, ViaTitle, ViaIds, Joins, ViaPairs, EntriesOf;
    ViaReport(py, name, severity, [item]);
    if item.Obj? {
      ViaPicks(item.fields);
      OnePair(item, (ViaAdvisory(item.fields), ViaTitle(item.fields)));
      OneEntry(name, severity, (ViaAdvisory(item.fields), ViaTitle(item.fields)));
      forall id | Picks(ViaIds(item.fields), id) ensures id == ViaAdvisory(item.fields) { PicksOnce(ViaIds(item.fields), id, ViaAdvisory(item.fields)); }
    } else if item.Str? {
      OnePair(item, (item, item));
      OneEntry(name, severity, (item, item));
    } else {
      NoPair(item);
    }
  }

  lemma OnePair(item: Json, p: (Json, Json))
    requires PairOf(item, p)
    ensures ViaPairs([item]) == [p]
  {
    hide ViaAdvisory, ViaTitle;
    assert [item][..0] == [] && ViaPairs([]) == [];
    assert [] + [p] == [p];
  }

  lemma NoPair(item: Json)
    requires !item.Obj? && !item.Str?
    ensures ViaPairs([item]) == [] && forall name, severity :: EntriesOf(name, severity, ViaPairs([item])) == []
  {
    assert [item][..0] == [] && ViaPairs([]) == [];
  }

  lemma OneEntry(name: string, severity: Json, p: (Json, Json))
    ensures EntriesOf(name, severity, [p]) == if Truthy(p.0) then [Entry(Str(name), severity, p.0)] else []
  {
    assert [p][..0] == [] && EntriesOf(name, severity, []) == [];
  }

  lemma GetOne(k: string, v: Json, key: string)
    ensures Get([(k, v)], key) == if k == key then v else Null
  {
  }

  /** A `via` object that carries nothing but a numeric source, which the advisory key allows for, stops
      the tool when it joins the titles. */
  lemma NumericSourceStops(py: Py, name: string, severity: Json, source: real)
    requires source != 0.0
    ensures Vulns(py, Obj([("vulnerabilities", Obj([(name, Obj([("severity", severity), ("via", Arr([Obj([("source", Num(source))])]))]))]))])) == Err(BadShape)
  {
    var item := Obj([("source", Num(source))]);
    var vuln := Obj([("severity", severity), ("via", Arr([item]))]);
    var vulns := Obj([(name, vuln)]);
    var data := Obj([("vulnerabilities", vulns)]);
    GetOne("source", Num(source), "title");
    GetOne("source", Num(source), "url");
    GetOne("source", Num(source), "advisory");
    GetOne("source", Num(source), "source");
    assert ViaTitle(item.fields) == Num(source);
    assert vuln.fields[1..][0] == ("via", Arr([item]));
    assert Get(vuln.fields, "via") == Arr([item]);
    assert InVia(vuln.fields, item);
    ViaPicks(item.fields);
    assert !ReadableVulnerability(vuln);
    VulnerabilityOk(name, vuln);
    assert data.fields[1..] == [] && Get(data.fields, "advisories") == Null && Get(data.fields, "vulnerabilities") == vulns;
    assert vulns.fields[..0] == [];
    assert FromVulnerabilities(vulns.fields).Err?;
    VulnerabilitiesBadShape(vulns.fields);
  }

  // The verdict ---------------------------------------------------------------

  /** What passes on a day passes on every earlier day. */
  lemma PassesEarlier(py: Py, exceptions: string, audit: Json, today: int, earlier: int)
    requires Accepts(py, exceptions, audit, today) && earlier <= today
    ensures Accepts(py, exceptions, audit, earlier)
  {
    hide Parse, Lines, Vulns, AllFound, Findings, ListOk, KeyOf, Matches;
    var es, fs := Parse(Lines(exceptions)).value, Findings(py, Vulns(py, audit).value);
    forall i | 0 <= i < |fs| ensures FindingPasses(py, es, fs, earlier, i) {
      assert FindingPasses(py, es, fs, today, i);
      if Relevant(fs[i]) {
        var e :| e in es && Covers(py, e, fs[i], today) && (FirstWithKey(fs, i) ==> Matches(py, e, fs[i]));
        assert Covers(py, e, fs[i], earlier);
      }
    }
  }

  ghost predicate FindingOk(py: Py, es: seq<Record>, f: Finding, today: int) {
    LastPasses(py, es, f, true, today)
  }

  /** The policy without regard to order: every relevant finding, not only the first with its key, has
      a valid exception of its severity. */
  ghost predicate EachOk(py: Py, es: seq<Record>, fs: seq<Finding>, today: int) {
    ListOk(py, es) && forall f :: f in fs ==> FindingOk(py, es, f, today)
  }

  ghost predicate SameSeverities(fs: seq<Finding>) {
    forall f, g :: f in fs && g in fs && Relevant(f) && Relevant(g) && f.key == g.key ==> f.severity == g.severity
  }

  lemma EachOkPasses(py: Py, es: seq<Record>, fs: seq<Finding>, today: int)
    requires EachOk(py, es, fs, today)
    ensures Policy(py, es, fs, today)
  {
    hide ListOk, Covers, Matches, Relevant;
    forall i | 0 <= i < |fs| ensures FindingPasses(py, es, fs, today, i) {
      assert FindingOk(py, es, fs[i], today);
    }
  }

  lemma {:induction false} FirstExists(fs: seq<Finding>, i: nat) returns (j: nat)
    requires i < |fs| && Relevant(fs[i])
    ensures j <= i && Relevant(fs[j]) && fs[j].key == fs[i].key && FirstWithKey(fs, j)
    decreases i
  {
    if FirstWithKey(fs, i) {
      j := i;
    } else {
      var k :| 0 <= k < i && Relevant(fs[k]) && fs[k].key == fs[i].key;
      j := FirstExists(fs, k);
    }
  }

  /** Where equal keys have equal severities, only what the entries are counts, not their order. */
  lemma PolicyUnordered(py: Py, es: seq<Record>, fs: seq<Finding>, today: int)
    requires SameSeverities(fs)
    ensures Policy(py, es, fs, today) <==> EachOk(py, es, fs, today)
  {
    hide ListOk, Relevant, KeyOf, ExpiryOf, SeverityOf;
    if Policy(py, es, fs, today) {
      forall f | f in fs ensures FindingOk(py, es, f, today) {
        if Relevant(f) {
          var i :| 0 <= i < |fs| && fs[i] == f;
          var j := FirstExists(fs, i);
          assert FindingPasses(py, es, fs, today, j);
          var e :| e in es && Covers(py, e, fs[j], today) && Matches(py, e, fs[j]);
          assert fs[j] in fs && fs[j].severity == f.severity;
          assert Covers(py, e, f, today) && Matches(py, e, f);
        }
      }
    }
    if EachOk(py, es, fs, today) { EachOkPasses(py, es, fs, today); }
  }

  lemma Reordered(py: Py, es: seq<Record>, fs: seq<Finding>, gs: seq<Finding>, today: int)
    requires SameSeverities(fs) && multiset(gs) == multiset(fs)
    ensures Policy(py, es, gs, today) <==> Policy(py, es, fs, today)
  {
    hide ListOk, FindingOk, Policy;
    SameMembers(fs, gs);
    PolicyUnordered(py, es, fs, today);
    PolicyUnordered(py, es, gs, today);
  }

  lemma SameMembers(fs: seq<Finding>, gs: seq<Finding>)
    requires multiset(gs) == multiset(fs)
    ensures forall f :: f in fs <==> f in gs
  {
    forall f ensures f in fs <==> f in gs { assert f in fs <==> f in multiset(fs); assert f in gs <==> f in multiset(gs); }
  }

  /** The verdict is a pass in every order exactly when every relevant entry has an exception of its own severity. */
  lemma EveryOrder(py: Py, es: seq<Record>, fs: seq<Finding>, today: int)
    requires ListOk(py, es)
    ensures (forall gs :: multiset(gs) == multiset(fs) ==> Policy(py, es, gs, today)) <==> EachOk(py, es, fs, today)
  {
    hide ListOk, Covers, Matches, Relevant;
    if EachOk(py, es, fs, today) {
      forall gs | multiset(gs) == multiset(fs) ensures Policy(py, es, gs, today) {
        SameMembers(fs, gs);
        EachOkPasses(py, es, gs, today);
      }
    }
    if forall gs :: multiset(gs) == multiset(fs) ==> Policy(py, es, gs, today) {
      forall f | f in fs ensures FindingOk(py, es, f, today) {
        var i :| 0 <= i < |fs| && fs[i] == f;
        var gs := [f] + fs[..i] + fs[i + 1..];
        Moved(fs, i);
        assert multiset(gs) == multiset(fs);
        assert Policy(py, es, gs, today);
        assert FindingPasses(py, es, gs, today, 0);
        assert FirstWithKey(gs, 0);
      }
    }
  }

  lemma Moved<T>(xs: seq<T>, i: nat)
    requires i < |xs|
    ensures multiset([xs[i]] + xs[..i] + xs[i + 1..]) == multiset(xs)
  {
    assert xs == xs[..i] + [xs[i]] + xs[i + 1..];
  }

  /** Without that the order decides: one exception, and two entries with its key of which the first must match. */
  lemma OrderDecides(py: Py, e: Record, today: int)
    requires Complete(py, e) && SeverityOf(py, e) == "high" && today <= ExpiryOf(py, e).value
    ensures var f, g := Finding("high", true, KeyOf(py, e)), Finding("critical", true, KeyOf(py, e));
      Policy(py, [e], [f, g], today) && !Policy(py, [e], [g, f], today)
  {
    hide KeyOf, ExpiryOf, SeverityOf, Filled;
    var f, g := Finding("high", true, KeyOf(py, e)), Finding("critical", true, KeyOf(py, e));
    assert e in [e] && Covers(py, e, f, today) && Covers(py, e, g, today) && Matches(py, e, f);
    assert !FirstWithKey([f, g], 1) by { assert Relevant([f, g][0]); }
    assert FindingPasses(py, [e], [f, g], today, 0) && FindingPasses(py, [e], [f, g], today, 1);
    assert FirstWithKey([g, f], 0) && !Matches(py, e, g);
    assert !FindingPasses(py, [e], [g, f], today, 0);
  }

  /** An exception with all its fields, a date, and a package and an advisory that are not blank. */
  ghost predicate Usable(py: Py, e: Record) {
    && (forall k :: k in {"package", "advisory", "severity", "mitigation", "expires_on"} ==> k in e && e[k] != "")
    && Strip(e["package"]) != "" && py.lower(Strip(e["advisory"])) != "" && py.date(e["expires_on"]).Some?
  }

  /** The exception is for this package and advisory, for this severity or any, and has not expired. */
  ghost predicate Excepts(py: Py, e: Record, package: string, severity: string, advisory: string, today: int) {
    && Usable(py, e)
    && Strip(package) == Strip(e["package"]) && py.lower(Strip(advisory)) == py.lower(Strip(e["advisory"]))
    && py.lower(Strip(e["severity"])) in {"", py.lower(Strip(severity))}
    && today <= py.date(e["expires_on"]).value
  }

  /** A report of one advisory against a list of one exception.  It is accepted exactly if the exception is
      usable and, where the advisory has a name and its severity is high or critical, is an exception for it. */
  lemma LoneAdvisory(py: Py, e: Record, id: string, a: Fields, data: Json, package: string, severity: string, advisory: string, today: int)
    requires Proper(e) && Reports(data, id, a) && ReadableAdvisory(Obj(a))
    requires AdvisoryEntry(py, a, Entry(Str(package), Str(severity), Str(advisory)))
    ensures Written([e])[0] != []
    ensures Accepts(py, Unlines(Print(Written([e]))), data, today) <==>
      if package != "" && py.lower(Strip(severity)) in {"high", "critical"} then Excepts(py, e, package, severity, advisory, today)
      else Usable(py, e)
  {
    hide Written, Proper, Print, Unlines, Accepts, Lines, Parse, Reports, AdvisoryEntry, Vulns, Strip, Excepts, Usable, Policy, FindingOf, Findings, AllFound;
    WrittenVerdict(py, [e], data, today);
    var x := Entry(Str(package), Str(severity), Str(advisory));
    LoneEntry(py, id, a, data, x);
    var f := Finding(py.lower(Strip(severity)), package != "", (Strip(package), py.lower(Strip(advisory))));
    FindingIs(py, package, severity, advisory);
    OneFinding(py, x, f);
    OnePolicy(py, e, f, today);
    UsableIs(py, e);
    ExceptsIs(py, e, f, package, severity, advisory, today);
  }

  /** With a package name and a GHSA, whatever else it holds, a url too, the advisory goes by those two. */
  lemma GhsaDecides(py: Py, e: Record, id: string, a: Fields, data: Json, package: string, severity: string, ghsa: string, today: int)
    requires Proper(e) && Reports(data, id, a) && package != "" && ghsa != ""
    requires Get(a, "module_name") == Str(package) && Get(a, "severity") == Str(severity) && Get(a, "github_advisory_id") == Str(ghsa)
    ensures Written([e])[0] != []
    ensures Accepts(py, Unlines(Print(Written([e]))), data, today) <==>
      if py.lower(Strip(severity)) in {"high", "critical"} then Excepts(py, e, package, severity, ghsa, today) else Usable(py, e)
  {
    PicksAt([Get(a, "module_name"), Get(a, "name")], 0);
    PicksAt(AdvisoryIds(py, a), 0);
    assert ReadableAdvisory(Obj(a));
    hide Get, Accepts, Excepts, Usable, Strip, Reports, Proper, Picks, ReadableAdvisory;
    LoneAdvisory(py, e, id, a, data, package, severity, ghsa, today);
  }

  /** The report is of this advisory and nothing else. */
  ghost predicate Reports(data: Json, id: string, a: Fields) {
    data.Obj? && Get(data.fields, "advisories") == Obj([(id, Obj(a))]) && !Get(data.fields, "vulnerabilities").Obj?
  }

  lemma LoneEntry(py: Py, id: string, a: Fields, data: Json, x: Entry)
    requires Reports(data, id, a) && ReadableAdvisory(Obj(a)) && AdvisoryEntry(py, a, x)
    ensures Vulns(py, data) == Ok([x])
  {
    var one := [(id, Obj(a))];
    AdvisoriesOk(py, one);
    EntryOnce(py, a, x, FromAdvisories(py, one).value[0]);
    hide Get, FromAdvisories, FromVulnerabilities, AdvisoryEntry, ReadableAdvisory;
    assert FromAdvisories(py, one).value == [x];
    assert [x] + [] == [x];
  }

  lemma OneFinding(py: Py, x: Entry, f: Finding)
    requires FindingOf(py, x) == Ok(f)
    ensures AllFound(py, [x]) && Findings(py, [x]) == [f]
  {
    hide FindingOf;
  }

  lemma OnePolicy(py: Py, e: Record, f: Finding, today: int)
    ensures Policy(py, [e], [f], today) <==>
      Complete(py, e) && (Relevant(f) ==> f.key.1 != "" && Covers(py, e, f, today) && Matches(py, e, f))
  {
    hide Complete, Relevant, Covers, Matches, KeyOf;
    assert ListOk(py, [e]) <==> Complete(py, e) by { assert [e][0] == e; }
    assert [f][0] == f && FirstWithKey([f], 0);
    hide ListOk;
    assert FindingPasses(py, [e], [f], today, 0) <==> (Relevant(f) ==> f.key.1 != "" && Covers(py, e, f, today) && Matches(py, e, f)) by {
      assert e in [e];
    }
  }

  lemma FindingIs(py: Py, package: string, severity: string, advisory: string)
    ensures FindingOf(py, Entry(Str(package), Str(severity), Str(advisory)))
      == Ok(Finding(py.lower(Strip(severity)), package != "", (Strip(package), py.lower(Strip(advisory)))))
  {
    hide Strip;
  }

  lemma UsableIs(py: Py, e: Record)
    ensures Complete(py, e) <==> Usable(py, e)
  {
    hide Strip;
    assert REQUIRED_FIELDS[0] == "package" && REQUIRED_FIELDS[1] == "advisory" && REQUIRED_FIELDS[2] == "severity";
    assert REQUIRED_FIELDS[3] == "mitigation" && REQUIRED_FIELDS[4] == "expires_on";
    forall k ensures k in REQUIRED_FIELDS <==> k in {"package", "advisory", "severity", "mitigation", "expires_on"} {}
  }

  lemma ExceptsIs(py: Py, e: Record, f: Finding, package: string, severity: string, advisory: string, today: int)
    requires f.severity == py.lower(Strip(severity)) && f.key == (Strip(package), py.lower(Strip(advisory)))
    ensures Complete(py, e) && f.key.1 != "" && Covers(py, e, f, today) && Matches(py, e, f) <==> Excepts(py, e, package, severity, advisory, today)
  {
    UsableIs(py, e);
    if Usable(py, e) { HasFields(py, e); }
    hide Strip, Complete, Usable;
  }

  lemma HasFields(py: Py, e: Record)
    requires Usable(py, e)
    ensures KeyOf(py, e) == (Strip(e["package"]), py.lower(Strip(e["advisory"]))) && KeyOf(py, e).1 != ""
    ensures SeverityOf(py, e) == py.lower(Strip(e["severity"])) && ExpiryOf(py, e) == py.date(e["expires_on"])
  {
    hide Strip;
  }

  /** Two written exceptions for one package and advisory: nothing is accepted. */
  lemma TwinsRefused(py: Py, d: Record, e: Record, data: Json, today: int)
    requires Proper(d) && Proper(e) && "package" in d && "package" in e && "advisory" in d && "advisory" in e
    requires Strip(d["package"]) == Strip(e["package"]) && py.lower(Strip(d["advisory"])) == py.lower(Strip(e["advisory"]))
    ensures forall i :: 0 <= i < 2 ==> Written([d, e])[i] != []
    ensures !Accepts(py, Unlines(Print(Written([d, e]))), data, today)
  {
    assert KeyOf(py, [d, e][0]) == KeyOf(py, [d, e][1]);
    assert !ListOk(py, [d, e]);
    hide Written, Proper, Print, Unlines, Accepts, Vulns, Strip, ListOk, KeyOf, AllFound, Findings;
    WrittenVerdict(py, [d, e], data, today);
  }

  /** The tool's verdict on a list that was written out is the policy on the list itself. */
  lemma WrittenVerdict(py: Py, es: seq<Record>, audit: Json, today: int)
    requires forall i :: 0 <= i < |es| ==> Proper(es[i])
    ensures forall i :: 0 <= i < |es| ==> Written(es)[i] != []
    ensures Accepts(py, Unlines(Print(Written(es))), audit, today) <==>
      var entries := Vulns(py, audit);
      entries.Ok? && AllFound(py, entries.value) && Policy(py, es, Findings(py, entries.value), today)
  {
    TextRoundTrip(es);
  }
}
