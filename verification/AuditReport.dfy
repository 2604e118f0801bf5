/** The report side of tools/check_pnpm_audit_exceptions.py: which reports are accepted
    and which findings they are flattened into. Titles only serve messages and are not
    modelled. */
module AuditReport {
  import opened Wrappers

  /** A value read from JSON. Objects keep the order of their keys. */
  datatype Json =
    | Null | Bool(b: bool) | Int(n: int) | Float(x: real) | Str(s: string)
    | Arr(items: seq<Json>) | Obj(fields: seq<(string, Json)>)

  predicate Truthy(j: Json) {
    match j
    case Null => false
    case Bool(b) => b
    case Int(n) => n != 0
    case Float(x) => x != 0.0
    case Str(s) => s != ""
    case Arr(items) => items != []
    case Obj(fields) => fields != []
  }

  function Or(a: Json, b: Json): Json {
    if Truthy(a) then a else b
  }

  predicate Has(fields: seq<(string, Json)>, key: string) {
    exists k :: 0 <= k < |fields| && fields[k].0 == key
  }

  /** dict.get: the value of a key, or Null. */
  function Get(fields: seq<(string, Json)>, key: string): Json {
    if fields == [] then Null
    else if fields[0].0 == key then fields[0].1
    else Get(fields[1..], key)
  }

  /** The parts of Python the tool leans on: str, lower and date.fromisoformat, the
      last giving an ordinal. */
  datatype Python = Python(text: Json -> string, lower: string -> string, date: string -> Option<int>)

  /** str leaves strings alone; the level names are in lower case. */
  ghost predicate Faithful(py: Python) {
    && (forall s :: py.text(Str(s)) == s)
    && (forall level :: level in LEVELS ==> py.lower(level) == level)
  }

  const LEVELS: seq<string> := ["info", "low", "moderate", "high", "critical"]

  predicate IsHigh(severity: Json) {
    severity == Str("high") || severity == Str("critical")
  }

  predicate IsLevel(severity: Json) {
    severity.Str? && severity.s in LEVELS
  }

  // ---- advisory identifiers --------------------------------------------------------

  /** (advisory.get("cves") or [None])[0]; None where indexing raises. */
  function FirstCve(cves: Json): Option<Json> {
    if !Truthy(cves) then Some(Null)
    else match cves
      case Arr(items) => Some(items[0])
      case Str(s) => Some(Str(s[..1]))
      case _ => None
  }

  /** str(id) unless there is none. */
  function IdText(id: Json, py: Python): Json {
    if id == Null then Null else Str(py.text(id))
  }

  /** The first usable identifier of an advisory; None where the search raises. */
  function PickAdvisoryId(a: seq<(string, Json)>, py: Python): Option<Json> {
    if Truthy(Get(a, "github_advisory_id")) then Some(Get(a, "github_advisory_id"))
    else if Truthy(Get(a, "url")) then Some(Get(a, "url"))
    else match FirstCve(Get(a, "cves"))
      case None => None
      case Some(cve) =>
        Some(Or(cve, Or(IdText(Get(a, "id"), py), Or(Get(a, "title"), Or(Get(a, "advisory"), Get(a, "overview"))))))
  }

  // ---- findings ---------------------------------------------------------------------

  datatype Finding = Finding(name: Json, severity: Json, advisory: Json)

  /** The entries of a section that is an object; none otherwise. */
  function Section(data: seq<(string, Json)>, key: string): seq<(string, Json)> {
    if Get(data, key).Obj? then Get(data, key).fields else []
  }

  function PackageName(a: seq<(string, Json)>): Json {
    Or(Get(a, "module_name"), Get(a, "name"))
  }

  function AdvisoryFinding(a: Json, py: Python): Finding
    requires a.Obj?
  {
    Finding(PackageName(a.fields), Get(a.fields, "severity"), PickAdvisoryId(a.fields, py).Or(Null))
  }

  /** What one entry of a via list names, or Null. */
  function ViaSource(item: Json): Json {
    match item
    case Obj(f) =>
      Or(Get(f, "github_advisory_id"), Or(Get(f, "url"), Or(Get(f, "source"), Or(Get(f, "title"), Get(f, "name")))))
    case Str(_) => item
    case _ => Null
  }

  function Via(v: seq<(string, Json)>): seq<Json> {
    match Get(v, "via")
    case Arr(items) => items
    case Str(s) => [Str(s)]
    case _ => []
  }

  /** One finding for each source that is named. */
  function ViaFindings(name: string, severity: Json, items: seq<Json>): seq<Finding> {
    if items == [] then []
    else
      var last := ViaSource(items[|items| - 1]);
      ViaFindings(name, severity, items[..|items| - 1])
      + (if Truthy(last) then [Finding(Str(name), severity, last)] else [])
  }

  function VulnerabilityFindings(name: string, v: Json): seq<Finding>
    requires v.Obj?
  {
    ViaFindings(name, Get(v.fields, "severity"), Via(v.fields))
  }

  /** Every entry of the section is an object. */
  predicate Objects(entries: seq<(string, Json)>) {
    forall k :: 0 <= k < |entries| ==> entries[k].1.Obj?
  }

  function AllAdvisories(entries: seq<(string, Json)>, py: Python): seq<Finding>
    requires Objects(entries)
  {
    seq(|entries|, k requires 0 <= k < |entries| => AdvisoryFinding(entries[k].1, py))
  }

  function AllVulnerabilities(entries: seq<(string, Json)>): seq<seq<Finding>>
    requires Objects(entries)
  {
    seq(|entries|, k requires 0 <= k < |entries| => VulnerabilityFindings(entries[k].0, entries[k].1))
  }

  /** What the flattening needs not to raise. */
  predicate Iterable(data: seq<(string, Json)>, py: Python) {
    && Objects(Section(data, "advisories")) && Objects(Section(data, "vulnerabilities"))
    && forall k :: 0 <= k < |Section(data, "advisories")| ==>
         PickAdvisoryId(Section(data, "advisories")[k].1.fields, py).Some?
  }

  function Findings(data: seq<(string, Json)>, py: Python): seq<Finding>
    requires Iterable(data, py)
  {
    AllAdvisories(Section(data, "advisories"), py) + Flatten(AllVulnerabilities(Section(data, "vulnerabilities")))
  }

  /** The generator: advisories first, then the sources of each vulnerability. */
  method IterVulns(data: seq<(string, Json)>, py: Python) returns (findings: seq<Finding>)
    requires Iterable(data, py)
    ensures findings == Findings(data, py)
  {
    var advisories, vulnerabilities := Section(data, "advisories"), Section(data, "vulnerabilities");
    findings := IterAdvisories(advisories, py);
    var more := IterVulnerabilities(vulnerabilities);
    findings := findings + more;
  }

  method IterAdvisories(advisories: seq<(string, Json)>, py: Python) returns (findings: seq<Finding>)
    requires Objects(advisories)
    requires forall k :: 0 <= k < |advisories| ==> PickAdvisoryId(advisories[k].1.fields, py).Some?
    ensures findings == AllAdvisories(advisories, py)
  {
    findings := [];
    for k := 0 to |advisories|
      invariant findings == AllAdvisories(advisories, py)[..k]
    {
      var a := advisories[k].1.fields;
      var id := PickAdvisoryId(a, py);
      findings := findings + [Finding(PackageName(a), Get(a, "severity"), id.value)];
    }
  }

  method IterVulnerabilities(vulnerabilities: seq<(string, Json)>) returns (findings: seq<Finding>)
    requires Objects(vulnerabilities)
    ensures findings == Flatten(AllVulnerabilities(vulnerabilities))
  {
    findings := [];
    ghost var lists := AllVulnerabilities(vulnerabilities);
    for k := 0 to |vulnerabilities|
      invariant findings == Flatten(lists[..k])
    {
      var name, v := vulnerabilities[k].0, vulnerabilities[k].1.fields;
      var named := IterVia(name, Get(v, "severity"), Via(v));
      findings := findings + named;
      assert lists[..k + 1][..k] == lists[..k];
    }
    assert lists[..|lists|] == lists;
  }

  method IterVia(name: string, severity: Json, via: seq<Json>) returns (named: seq<Finding>)
    ensures named == ViaFindings(name, severity, via)
  {
    named := [];
    for j := 0 to |via|
      invariant named == ViaFindings(name, severity, via[..j])
    {
      assert via[..j + 1][..j] == via[..j];
      var id := ViaSource(via[j]);
      if Truthy(id) {
        named := named + [Finding(Str(name), severity, id)];
      }
    }
    assert via[..|via|] == via;
  }

  // ---- accepting a report ---------------------------------------------------------------

  /** The count of a level, or -1 where it is not a whole number. */
  function Count(counts: seq<(string, Json)>, level: string): int {
    if Get(counts, level).Int? then Get(counts, level).n else -1
  }

  predicate CountsOk(counts: Json) {
    counts.Obj? && forall level :: level in LEVELS ==> Count(counts.fields, level) >= 0
  }

  /** data.get('metadata', {}).get('vulnerabilities'); None where that raises. */
  function Counts(data: seq<(string, Json)>): Option<Json> {
    if !Has(data, "metadata") then Some(Null)
    else match Get(data, "metadata")
      case Obj(m) => Some(Get(m, "vulnerabilities"))
      case _ => None
  }

  predicate AdvisoryOk(a: Json, py: Python) {
    && a.Obj? && Truthy(PackageName(a.fields)) && IsLevel(Get(a.fields, "severity"))
    && PickAdvisoryId(a.fields, py).Some? && Truthy(PickAdvisoryId(a.fields, py).value)
  }

  predicate SourceOk(item: Json) {
    match item
    case Str(s) => s != ""
    case Obj(f) => Truthy(Get(f, "github_advisory_id")) || Truthy(Get(f, "url")) || Truthy(Get(f, "source"))
    case _ => false
  }

  predicate VulnerabilityOk(name: string, v: Json) {
    && name != "" && v.Obj? && IsLevel(Get(v.fields, "severity"))
    && Get(v.fields, "via").Arr? && Get(v.fields, "via").items != []
    && forall k :: 0 <= k < |Get(v.fields, "via").items| ==> SourceOk(Get(v.fields, "via").items[k])
  }

  /** Some record of the report, advisory or vulnerability, is high or critical. */
  ghost predicate HighRecord(data: seq<(string, Json)>) {
    var advisories, vulnerabilities := Section(data, "advisories"), Section(data, "vulnerabilities");
    || (exists k :: 0 <= k < |advisories| && advisories[k].1.Obj?
          && IsHigh(Get(advisories[k].1.fields, "severity")))
    || (exists k :: 0 <= k < |vulnerabilities| && vulnerabilities[k].1.Obj?
          && IsHigh(Get(vulnerabilities[k].1.fields, "severity")))
  }

  /** The sections that are present are objects, and one of them is. */
  predicate SectionsOk(data: seq<(string, Json)>) {
    && (Has(data, "advisories") || Has(data, "vulnerabilities"))
    && (Has(data, "advisories") ==> Get(data, "advisories").Obj?)
    && (Has(data, "vulnerabilities") ==> Get(data, "vulnerabilities").Obj?)
  }

  predicate RecordsOk(data: seq<(string, Json)>, py: Python) {
    && (forall k :: 0 <= k < |Section(data, "advisories")| ==> AdvisoryOk(Section(data, "advisories")[k].1, py))
    && (forall k :: 0 <= k < |Section(data, "vulnerabilities")| ==>
          VulnerabilityOk(Section(data, "vulnerabilities")[k].0, Section(data, "vulnerabilities")[k].1))
  }

  /** A complete report: no error, sections and counts present, every record well
      formed, counts that agree with the records about there being anything high, and
      an exit code, if one is given, that agrees too. */
  ghost predicate Complete(report: Json, exitCode: Option<int>, py: Python) {
    && report.Obj? && !Has(report.fields, "error") && SectionsOk(report.fields)
    && Counts(report.fields).Some? && CountsOk(Counts(report.fields).value)
    && RecordsOk(report.fields, py)
    && var counts := Counts(report.fields).value.fields;
    && (Count(counts, "high") + Count(counts, "critical") > 0 <==> HighRecord(report.fields))
    && (exitCode.Some? ==> exitCode.value == if HighRecord(report.fields) then 1 else 0)
  }

  // ---- what accepted reports are flattened into -------------------------------------------

  /** Vulnerability k yields a finding for each of its sources that is named: at least
      one, all with its own name and level. */
  lemma {:induction false} ViaYields(name: string, severity: Json, items: seq<Json>)
    requires forall k :: 0 <= k < |items| ==> SourceOk(items[k])
    ensures |ViaFindings(name, severity, items)| == |items|
    ensures forall k :: 0 <= k < |items| ==>
      ViaFindings(name, severity, items)[k] == Finding(Str(name), severity, ViaSource(items[k]))
      && Truthy(ViaSource(items[k]))
  {
    if items != [] {
      ViaYields(name, severity, items[..|items| - 1]);
      assert SourceOk(items[|items| - 1]);
    }
  }

  /** Finding f comes from entry k of the vulnerabilities. */
  ghost predicate FromVulnerability(f: Finding, entries: seq<(string, Json)>, k: int)
    requires Objects(entries)
  {
    0 <= k < |entries| && f in VulnerabilityFindings(entries[k].0, entries[k].1)
  }

  lemma AllVulnerabilitiesAre(entries: seq<(string, Json)>, f: Finding)
    requires Objects(entries)
    ensures f in Flatten(AllVulnerabilities(entries)) <==> exists k :: FromVulnerability(f, entries, k)
  {
    var lists := AllVulnerabilities(entries);
    FlattenMembers(lists, f);
    if k :| 0 <= k < |lists| && f in lists[k] {
      assert FromVulnerability(f, entries, k);
    }
    if k :| FromVulnerability(f, entries, k) {
      assert f in lists[k];
    }
  }

  /** Records that pass validation are flattened without raising. */
  lemma RecordsIterable(data: seq<(string, Json)>, py: Python)
    requires RecordsOk(data, py)
    ensures Iterable(data, py)
  {
  }

  /** The record a finding comes from: advisory k, or a source of vulnerability k. */
  ghost predicate FromRecord(data: seq<(string, Json)>, py: Python, f: Finding)
    requires Iterable(data, py)
  {
    var advisories, vulnerabilities := Section(data, "advisories"), Section(data, "vulnerabilities");
    || (exists k :: 0 <= k < |advisories| && f == AdvisoryFinding(advisories[k].1, py))
    || (exists k :: FromVulnerability(f, vulnerabilities, k))
  }

  /** The findings are exactly what the records give. */
  lemma FindingsAre(data: seq<(string, Json)>, py: Python, f: Finding)
    requires Iterable(data, py)
    ensures f in Findings(data, py) <==> FromRecord(data, py, f)
  {
    var advisories, vulnerabilities := Section(data, "advisories"), Section(data, "vulnerabilities");
    AllVulnerabilitiesAre(vulnerabilities, f);
    var a := AllAdvisories(advisories, py);
    if f in a {
      var k :| 0 <= k < |a| && a[k] == f;
      assert f == AdvisoryFinding(advisories[k].1, py);
    }
    if k :| 0 <= k < |advisories| && f == AdvisoryFinding(advisories[k].1, py) {
      assert a[k] == f;
    }
    assert f in Findings(data, py) <==> f in a || f in Flatten(AllVulnerabilities(vulnerabilities));
  }

  /** What every finding of an accepted report looks like: a named package, a known
      level and an advisory. */
  predicate WellFormed(f: Finding) {
    Truthy(f.name) && IsLevel(f.severity) && Truthy(f.advisory)
  }

  lemma FindingsWellFormed(data: seq<(string, Json)>, py: Python)
    requires RecordsOk(data, py)
    ensures Iterable(data, py) && forall f :: f in Findings(data, py) ==> WellFormed(f)
  {
    RecordsIterable(data, py);
    forall f | f in Findings(data, py)
      ensures WellFormed(f)
    {
      FindingsAre(data, py, f);
      if k :| FromVulnerability(f, Section(data, "vulnerabilities"), k) {
        var (name, v) := Section(data, "vulnerabilities")[k];
        assert VulnerabilityOk(name, v);
        ViaYields(name, Get(v.fields, "severity"), Via(v.fields));
      }
    }
  }

  /** The finding for source j of a vulnerability. */
  function SourceFinding(entry: (string, Json), j: nat): Finding
    requires entry.1.Obj? && j < |Via(entry.1.fields)|
  {
    Finding(Str(entry.0), Get(entry.1.fields, "severity"), ViaSource(Via(entry.1.fields)[j]))
  }

  /** In a report whose records pass, every vulnerability yields one finding for each
      of its sources, so at least one, and every advisory yields exactly one; all carry
      the level of their record. */
  lemma EveryRecordYields(data: seq<(string, Json)>, py: Python)
    requires RecordsOk(data, py)
    ensures Iterable(data, py)
    ensures forall k :: 0 <= k < |Section(data, "advisories")| ==>
      var a := Section(data, "advisories")[k].1;
      AdvisoryFinding(a, py) in Findings(data, py) && AdvisoryFinding(a, py).severity == Get(a.fields, "severity")
    ensures var entries := Section(data, "vulnerabilities");
      forall k, j :: 0 <= k < |entries| && 0 <= j < |Via(entries[k].1.fields)| ==>
        SourceFinding(entries[k], j) in Findings(data, py)
    ensures forall k :: 0 <= k < |Section(data, "vulnerabilities")| ==>
      Via(Section(data, "vulnerabilities")[k].1.fields) != []
  {
    RecordsIterable(data, py);
    var advisories, vulnerabilities := Section(data, "advisories"), Section(data, "vulnerabilities");
    forall k | 0 <= k < |advisories|
      ensures AdvisoryFinding(advisories[k].1, py) in Findings(data, py)
    {
      FindingsAre(data, py, AdvisoryFinding(advisories[k].1, py));
    }
    forall k, j | 0 <= k < |vulnerabilities| && 0 <= j < |Via(vulnerabilities[k].1.fields)|
      ensures SourceFinding(vulnerabilities[k], j) in Findings(data, py)
    {
      var (name, v) := vulnerabilities[k];
      assert VulnerabilityOk(name, v);
      ViaYields(name, Get(v.fields, "severity"), Via(v.fields));
      var f := SourceFinding(vulnerabilities[k], j);
      assert ViaFindings(name, Get(v.fields, "severity"), Via(v.fields))[j] == f;
      assert FromVulnerability(f, vulnerabilities, k);
      FindingsAre(data, py, f);
    }
  }

  /** A high finding comes from a high record. */
  lemma HighFindingHasRecord(data: seq<(string, Json)>, py: Python, f: Finding)
    requires RecordsOk(data, py) && Iterable(data, py)
    requires f in Findings(data, py) && IsHigh(f.severity)
    ensures HighRecord(data)
  {
    FindingsAre(data, py, f);
    if k :| FromVulnerability(f, Section(data, "vulnerabilities"), k) {
      var (name, v) := Section(data, "vulnerabilities")[k];
      assert VulnerabilityOk(name, v);
      ViaYields(name, Get(v.fields, "severity"), Via(v.fields));
      assert IsHigh(Get(v.fields, "severity"));
    }
  }

  /** Some finding is high exactly when some record is. */
  lemma HighFindings(data: seq<(string, Json)>, py: Python)
    requires RecordsOk(data, py)
    ensures Iterable(data, py)
    ensures (exists f :: f in Findings(data, py) && IsHigh(f.severity)) <==> HighRecord(data)
  {
    EveryRecordYields(data, py);
    var advisories, vulnerabilities := Section(data, "advisories"), Section(data, "vulnerabilities");
    if f :| f in Findings(data, py) && IsHigh(f.severity) {
      HighFindingHasRecord(data, py, f);
    }
    if k :| 0 <= k < |vulnerabilities| && IsHigh(Get(vulnerabilities[k].1.fields, "severity")) {
      assert SourceFinding(vulnerabilities[k], 0) in Findings(data, py);
    }
    if k :| 0 <= k < |advisories| && IsHigh(Get(advisories[k].1.fields, "severity")) {
      assert IsHigh(AdvisoryFinding(advisories[k].1, py).severity);
    }
  }

  // ---- the validator ------------------------------------------------------------------

  /** The number of high findings. */
  function HighCount(findings: seq<Finding>): nat {
    |Filter(findings, (f: Finding) => IsHigh(f.severity))|
  }

  lemma HighCountPositive(findings: seq<Finding>)
    ensures HighCount(findings) > 0 <==> exists f :: f in findings && IsHigh(f.severity)
  {
    var high := (f: Finding) => IsHigh(f.severity);
    FilterMembers(findings, high);
    if HighCount(findings) > 0 {
      assert Filter(findings, high)[0] in Filter(findings, high);
    }
    if f :| f in findings && IsHigh(f.severity) {
      assert f in Filter(findings, high);
    }
  }

  /** Accepts exactly the complete reports; every other outcome, raised or returned,
      ends the program with exit code 1. */
  method ValidateAudit(report: Json, exitCode: Option<int>, py: Python) returns (ok: bool)
    ensures ok <==> Complete(report, exitCode, py)
  {
    if !report.Obj? || Has(report.fields, "error") {
      return false;
    }
    var data := report.fields;
    if !SectionsOk(data) {
      return false;
    }
    var counts := Counts(data);
    if counts.None? || !CountsOk(counts.value) {
      return false;
    }
    var recordsOk := ValidateRecords(data, py);
    if !recordsOk {
      return false;
    }
    RecordsIterable(data, py);
    var findings := IterVulns(data, py);
    var highCount := HighCount(findings);
    HighFindings(data, py);
    HighCountPositive(findings);
    if (Count(counts.value.fields, "high") + Count(counts.value.fields, "critical") > 0) != (highCount > 0) {
      return false;
    }
    if exitCode.Some? && (exitCode.value !in [0, 1] || exitCode.value != if highCount > 0 then 1 else 0) {
      return false;
    }
    ok := true;
  }

  method ValidateRecords(data: seq<(string, Json)>, py: Python) returns (ok: bool)
    ensures ok <==> RecordsOk(data, py)
  {
    var advisories, vulnerabilities := Section(data, "advisories"), Section(data, "vulnerabilities");
    for k := 0 to |advisories|
      invariant forall j :: 0 <= j < k ==> AdvisoryOk(advisories[j].1, py)
    {
      if !AdvisoryOk(advisories[k].1, py) {
        return false;
      }
    }
    for k := 0 to |vulnerabilities|
      invariant forall j :: 0 <= j < k ==> VulnerabilityOk(vulnerabilities[j].0, vulnerabilities[j].1)
    {
      if !VulnerabilityOk(vulnerabilities[k].0, vulnerabilities[k].1) {
        return false;
      }
    }
    ok := true;
  }
}
