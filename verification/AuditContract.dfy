/** What the audit check promises, in terms of the report's own values and of the fields
    of the exceptions. */
module AuditContract {
  import opened AuditReport
  import opened AuditVerdict
  import opened ExceptionFile
  import opened Text
  import opened VerdictLaws
  import opened Wrappers

  // ---- keys ------------------------------------------------------------------------------

  function FieldText(r: Record, field: string): string {
    if field in r then r[field] else ""
  }

  /** What a name or an advisory is compared by: its text without the white space around
      it; Null has none. */
  function PlainText(j: Json, py: Python): string {
    if j == Null then "" else Trim(py.text(j))
  }

  /** The package names are the same and so are the advisories, but for upper and lower
      case. */
  predicate SameMatter(f: Finding, g: Finding, py: Python) {
    && PlainText(f.name, py) == PlainText(g.name, py)
    && AdvisoryText(f, py) == AdvisoryText(g, py)
  }

  function AdvisoryText(f: Finding, py: Python): string {
    if f.advisory == Null then "" else py.lower(Trim(py.text(f.advisory)))
  }

  function LevelText(f: Finding, py: Python): string {
    py.lower(Trim(if f.severity.Str? then f.severity.s else ""))
  }

  /** The exception is for the finding's package and advisory. */
  predicate IsFor(r: Record, f: Finding, py: Python) {
    && Trim(FieldText(r, "package")) == PlainText(f.name, py)
    && py.lower(Trim(FieldText(r, "advisory"))) == AdvisoryText(f, py)
  }

  lemma KeysMeet(f: Finding, r: Record, py: Python)
    ensures RulesOf(py).key(r) == ViewOf(py).key(f) <==> IsFor(r, f, py)
    ensures ViewOf(py).key(f).1 == AdvisoryText(f, py)
  {
  }

  lemma KeysAgree(f: Finding, g: Finding, py: Python)
    ensures ViewOf(py).key(f) == ViewOf(py).key(g) <==> SameMatter(f, g, py)
  {
  }

  // ---- the verdict -------------------------------------------------------------------------

  /** The exception has every field that is required, a date, a package and an advisory. */
  ghost predicate IsSound(r: Record, py: Python) {
    && FieldText(r, "package") != "" && FieldText(r, "advisory") != "" && FieldText(r, "severity") != ""
    && FieldText(r, "mitigation") != "" && FieldText(r, "expires_on") != ""
    && py.date(FieldText(r, "expires_on")).Some?
    && Trim(FieldText(r, "package")) != "" && py.lower(Trim(FieldText(r, "advisory"))) != ""
  }

  predicate SameTarget(r: Record, s: Record, py: Python) {
    && Trim(FieldText(r, "package")) == Trim(FieldText(s, "package"))
    && py.lower(Trim(FieldText(r, "advisory"))) == py.lower(Trim(FieldText(s, "advisory")))
  }

  /** Every exception is sound and no two are for the same package and advisory. */
  ghost predicate AllSound(records: seq<Record>, py: Python) {
    && (forall i :: 0 <= i < |records| ==> IsSound(records[i], py))
    && (forall i, j :: 0 <= i < j < |records| ==> !SameTarget(records[i], records[j], py))
  }

  /** The finding is high or critical and names a package. */
  predicate IsDue(f: Finding, py: Python) {
    (LevelText(f, py) == "high" || LevelText(f, py) == "critical") && Truthy(f.name)
  }

  /** Finding j is the first one of its package and advisory that is due. */
  ghost predicate IsFirstDue(findings: seq<Finding>, j: nat, py: Python)
    requires j < |findings|
  {
    && IsDue(findings[j], py)
    && forall i :: 0 <= i < j && IsDue(findings[i], py) ==> !SameMatter(findings[i], findings[j], py)
  }

  /** The exception is for the finding, still valid, and for its level or a blank one. */
  ghost predicate Answers(r: Record, f: Finding, today: int, py: Python) {
    && IsFor(r, f, py)
    && py.date(FieldText(r, "expires_on")).Some? && py.date(FieldText(r, "expires_on")).value >= today
    && (py.lower(Trim(FieldText(r, "severity"))) == "" || py.lower(Trim(FieldText(r, "severity"))) == LevelText(f, py))
  }

  ghost predicate IsAnswered(records: seq<Record>, f: Finding, today: int, py: Python) {
    AdvisoryText(f, py) != "" && exists i :: 0 <= i < |records| && Answers(records[i], f, today, py)
  }

  lemma SoundIs(r: Record, py: Python)
    ensures RulesOf(py).problem(r) == None <==> IsSound(r, py)
  {
    RequiredAre(r);
  }

  lemma RequiredAre(r: Record)
    ensures FieldsPresent(r) <==>
      && FieldText(r, "package") != "" && FieldText(r, "advisory") != "" && FieldText(r, "severity") != ""
      && FieldText(r, "mitigation") != "" && FieldText(r, "expires_on") != ""
  {
    assert REQUIRED_FIELDS[0] == "package" && REQUIRED_FIELDS[1] == "advisory" && REQUIRED_FIELDS[2] == "severity";
    assert REQUIRED_FIELDS[3] == "mitigation" && REQUIRED_FIELDS[4] == "expires_on" && |REQUIRED_FIELDS| == 5;
    assert forall field :: Value(r, field) == FieldText(r, field);
    assert FieldsPresent(r) <==> forall i :: 0 <= i < 5 ==> Value(r, REQUIRED_FIELDS[i]) != "";
  }

  lemma AllSoundIs(records: seq<Record>, py: Python)
    ensures ListSound(records, RulesOf(py)) <==> AllSound(records, py)
  {
    var rules := RulesOf(py);
    forall i | 0 <= i < |records|
      ensures rules.problem(records[i]) == None <==> IsSound(records[i], py)
    {
      SoundIs(records[i], py);
    }
    forall i, j | 0 <= i < j < |records|
      ensures rules.key(records[i]) == rules.key(records[j]) <==> SameTarget(records[i], records[j], py)
    {
      TargetsAgree(records[i], records[j], py);
    }
  }

  lemma TargetsAgree(r: Record, s: Record, py: Python)
    ensures RulesOf(py).key(r) == RulesOf(py).key(s) <==> SameTarget(r, s, py)
  {
  }

  lemma AnsweredIs(records: seq<Record>, f: Finding, today: int, py: Python)
    requires AllSound(records, py)
    ensures AuditVerdict.Covered(records, ViewOf(py).key(f), ViewOf(py).severity(f), today, RulesOf(py)) <==>
      exists i :: 0 <= i < |records| && Answers(records[i], f, today, py)
  {
    forall i | 0 <= i < |records|
      ensures CoveredBy(records, i, ViewOf(py).key(f), ViewOf(py).severity(f), today, RulesOf(py)) <==>
        Answers(records[i], f, today, py)
    {
      SoundIs(records[i], py);
      KeysMeet(f, records[i], py);
    }
    if i :| CoveredBy(records, i, ViewOf(py).key(f), ViewOf(py).severity(f), today, RulesOf(py)) {
      assert Answers(records[i], f, today, py);
    }
    if i :| 0 <= i < |records| && Answers(records[i], f, today, py) {
      assert CoveredBy(records, i, ViewOf(py).key(f), ViewOf(py).severity(f), today, RulesOf(py));
    }
  }

  /** Finding j is the first considered one with its key. */
  ghost predicate IsFirst(findings: seq<Finding>, j: nat, view: View)
    requires j < |findings|
  {
    && view.considered(findings[j])
    && forall i :: 0 <= i < j && view.considered(findings[i]) ==> view.key(findings[i]) != view.key(findings[j])
  }

  lemma {:induction false} NoneSoFar(findings: seq<Finding>, key: Key, view: View)
    requires forall i :: 0 <= i < |findings| && view.considered(findings[i]) ==> view.key(findings[i]) != key
    ensures FirstSeverity(findings, key, view) == None
  {
    if findings != [] {
      NoneSoFar(findings[..|findings| - 1], key, view);
    }
  }

  lemma FirstDecides(findings: seq<Finding>, j: nat, view: View)
    requires j < |findings| && IsFirst(findings, j, view)
    ensures FirstSeverity(findings, view.key(findings[j]), view) == Some(view.severity(findings[j]))
  {
    var upTo := findings[..j + 1];
    assert upTo[..j] == findings[..j] && findings == upTo + findings[j + 1..];
    NoneSoFar(findings[..j], view.key(findings[j]), view);
    FirstStays(upTo, findings[j + 1..], view.key(findings[j]), view);
  }

  lemma {:induction false} FirstOf(findings: seq<Finding>, k: nat, view: View) returns (j: nat)
    requires k < |findings| && view.considered(findings[k])
    ensures j <= k && IsFirst(findings, j, view) && view.key(findings[j]) == view.key(findings[k])
  {
    if i :| 0 <= i < k && view.considered(findings[i]) && view.key(findings[i]) == view.key(findings[k]) {
      j := FirstOf(findings, i, view);
    } else {
      j := k;
    }
  }

  /** The finding's key names an advisory and is covered at the finding's own level. */
  ghost predicate IsMet(records: seq<Record>, f: Finding, today: int, rules: Rules, view: View) {
    view.key(f).1 != "" && AuditVerdict.Covered(records, view.key(f), view.severity(f), today, rules)
  }

  /** The verdict is good exactly when the list is sound and each first finding that is due
      is answered at its own level. */
  lemma FirstsDecide(records: seq<Record>, findings: seq<Finding>, today: int, rules: Rules, view: View)
    ensures Verdict(records, findings, today, rules, view) <==>
      && ListSound(records, rules)
      && forall j: nat :: j < |findings| && IsFirst(findings, j, view) ==>
           IsMet(records, findings[j], today, rules, view)
  {
    forall j: nat | j < |findings| && IsFirst(findings, j, view)
      ensures Excusable(records, findings, findings[j], today, rules, view) <==>
        IsMet(records, findings[j], today, rules, view)
    {
      FirstDecides(findings, j, view);
      assert findings[j] in findings;
    }
    forall k: nat | k < |findings| && view.considered(findings[k])
      ensures exists j: nat ::
                j < |findings| && IsFirst(findings, j, view)
                && (Excusable(records, findings, findings[k], today, rules, view)
                    <==> Excusable(records, findings, findings[j], today, rules, view))
    {
      var j := FirstOf(findings, k, view);
    }
  }

  /** The verdict in the words of the report and the list: it is good exactly when every
      exception is sound, no two are for the same package and advisory, and the first
      finding that is due for a package and an advisory names its advisory and has an
      exception that is still valid and not for another level. */
  lemma VerdictMeans(records: seq<Record>, findings: seq<Finding>, today: int, py: Python)
    ensures Verdict(records, findings, today, RulesOf(py), ViewOf(py)) <==>
      && AllSound(records, py)
      && forall j: nat :: j < |findings| && IsFirstDue(findings, j, py) ==> IsAnswered(records, findings[j], today, py)
  {
    FirstsDecide(records, findings, today, RulesOf(py), ViewOf(py));
    AllSoundIs(records, py);
    if AllSound(records, py) {
      forall j: nat | j < |findings|
        ensures IsFirst(findings, j, ViewOf(py)) <==> IsFirstDue(findings, j, py)
        ensures IsMet(records, findings[j], today, RulesOf(py), ViewOf(py))
          <==> IsAnswered(records, findings[j], today, py)
      {
        FirstIsFirstDue(findings, j, py);
        AnsweredIs(records, findings[j], today, py);
        KeysMeet(findings[j], map[], py);
      }
    }
  }

  lemma FirstIsFirstDue(findings: seq<Finding>, j: nat, py: Python)
    requires j < |findings|
    ensures IsFirst(findings, j, ViewOf(py)) <==> IsFirstDue(findings, j, py)
  {
    forall i | 0 <= i < |findings|
      ensures ViewOf(py).key(findings[i]) == ViewOf(py).key(findings[j]) <==> SameMatter(findings[i], findings[j], py)
      ensures ViewOf(py).considered(findings[i]) <==> IsDue(findings[i], py)
    {
      KeysAgree(findings[i], findings[j], py);
    }
  }

  // ---- upper and lower case ------------------------------------------------------------------

  /** The findings differ at most in the case of their advisories. */
  predicate FindingButCase(f: Finding, g: Finding, py: Python) {
    && f.name == g.name && f.severity == g.severity && f.advisory != Null && g.advisory != Null
    && py.lower(Trim(py.text(f.advisory))) == py.lower(Trim(py.text(g.advisory)))
  }

  /** So do the exceptions. */
  ghost predicate RecordButCase(r: Record, s: Record, py: Python) {
    && "advisory" in r && "advisory" in s && r["advisory"] != "" && s["advisory"] != ""
    && py.lower(Trim(r["advisory"])) == py.lower(Trim(s["advisory"]))
    && forall field :: field != "advisory" ==> FieldText(r, field) == FieldText(s, field)
  }

  ghost predicate SameButCase(rs: seq<Record>, ss: seq<Record>, a: seq<Finding>, b: seq<Finding>, py: Python) {
    && |a| == |b| && (forall k :: 0 <= k < |a| ==> FindingButCase(a[k], b[k], py))
    && |rs| == |ss| && (forall k :: 0 <= k < |rs| ==> RecordButCase(rs[k], ss[k], py))
  }

  lemma SoundButCase(r: Record, s: Record, py: Python)
    requires RecordButCase(r, s, py)
    ensures IsSound(r, py) <==> IsSound(s, py)
    ensures forall t, u :: RecordButCase(t, u, py) ==> (SameTarget(r, t, py) <==> SameTarget(s, u, py))
  {
    ButCaseFields(r, s, py);
    forall t, u | RecordButCase(t, u, py)
      ensures SameTarget(r, t, py) <==> SameTarget(s, u, py)
    {
      ButCaseFields(t, u, py);
    }
  }

  lemma ButCaseFields(r: Record, s: Record, py: Python)
    requires RecordButCase(r, s, py)
    ensures FieldText(r, "package") == FieldText(s, "package") && FieldText(r, "severity") == FieldText(s, "severity")
    ensures FieldText(r, "mitigation") == FieldText(s, "mitigation")
    ensures FieldText(r, "expires_on") == FieldText(s, "expires_on")
    ensures py.lower(Trim(FieldText(r, "advisory"))) == py.lower(Trim(FieldText(s, "advisory")))
    ensures FieldText(r, "advisory") != "" && FieldText(s, "advisory") != ""
  {
    assert |"package"| != |"advisory"| && |"mitigation"| != |"advisory"| && |"expires_on"| != |"advisory"|;
    assert "severity"[0] != "advisory"[0];
  }

  lemma AllSoundButCase(rs: seq<Record>, ss: seq<Record>, py: Python)
    requires |rs| == |ss| && AllSound(rs, py) && forall k :: 0 <= k < |rs| ==> RecordButCase(rs[k], ss[k], py)
    ensures AllSound(ss, py)
  {
    forall i | 0 <= i < |ss|
      ensures IsSound(ss[i], py)
    {
      SoundButCase(rs[i], ss[i], py);
    }
    forall i, j | 0 <= i < j < |ss|
      ensures !SameTarget(ss[i], ss[j], py)
    {
      SoundButCase(rs[i], ss[i], py);
      assert RecordButCase(rs[j], ss[j], py) && !SameTarget(rs[i], rs[j], py);
    }
  }

  lemma FirstButCase(a: seq<Finding>, b: seq<Finding>, j: nat, py: Python)
    requires |a| == |b| && j < |a| && forall k :: 0 <= k < |a| ==> FindingButCase(a[k], b[k], py)
    requires IsFirstDue(b, j, py)
    ensures IsFirstDue(a, j, py)
  {
    forall i | 0 <= i < j && IsDue(a[i], py)
      ensures !SameMatter(a[i], a[j], py)
    {
      assert FindingButCase(a[i], b[i], py) && FindingButCase(a[j], b[j], py);
      assert IsDue(b[i], py);
    }
  }

  lemma AnswersButCase(r: Record, s: Record, f: Finding, g: Finding, today: int, py: Python)
    requires RecordButCase(r, s, py) && FindingButCase(f, g, py)
    ensures Answers(r, f, today, py) <==> Answers(s, g, today, py)
  {
    ButCaseFields(r, s, py);
    assert PlainText(f.name, py) == PlainText(g.name, py) && AdvisoryText(f, py) == AdvisoryText(g, py);
    assert IsFor(r, f, py) <==> IsFor(s, g, py);
  }

  lemma AnsweredButCase(rs: seq<Record>, ss: seq<Record>, f: Finding, g: Finding, today: int, py: Python)
    requires |rs| == |ss| && forall k :: 0 <= k < |rs| ==> RecordButCase(rs[k], ss[k], py)
    requires FindingButCase(f, g, py) && IsAnswered(rs, f, today, py)
    ensures IsAnswered(ss, g, today, py)
  {
    var i :| 0 <= i < |rs| && Answers(rs[i], f, today, py);
    AnswersButCase(rs[i], ss[i], f, g, today, py);
    assert Answers(ss[i], g, today, py);
  }

  lemma CaseKeepsVerdict(rs: seq<Record>, ss: seq<Record>, a: seq<Finding>, b: seq<Finding>, today: int, py: Python)
    requires SameButCase(rs, ss, a, b, py) && Verdict(rs, a, today, RulesOf(py), ViewOf(py))
    ensures Verdict(ss, b, today, RulesOf(py), ViewOf(py))
  {
    VerdictMeans(rs, a, today, py);
    VerdictMeans(ss, b, today, py);
    AllSoundButCase(rs, ss, py);
    forall j: nat | j < |b| && IsFirstDue(b, j, py)
      ensures IsAnswered(ss, b[j], today, py)
    {
      FirstButCase(a, b, j, py);
      AnsweredButCase(rs, ss, a[j], b[j], today, py);
    }
  }

  /** Upper and lower case of advisories never matter: replacing those of the findings and
      of the exceptions by texts with the same lower case leaves the verdict alone. */
  lemma CaseDoesNotMatter(rs: seq<Record>, ss: seq<Record>, a: seq<Finding>, b: seq<Finding>, today: int, py: Python)
    requires SameButCase(rs, ss, a, b, py)
    ensures Verdict(rs, a, today, RulesOf(py), ViewOf(py)) <==> Verdict(ss, b, today, RulesOf(py), ViewOf(py))
  {
    if Verdict(rs, a, today, RulesOf(py), ViewOf(py)) {
      CaseKeepsVerdict(rs, ss, a, b, today, py);
    }
    if Verdict(ss, b, today, RulesOf(py), ViewOf(py)) {
      CaseKeepsVerdict(ss, rs, b, a, today, py);
    }
  }

  // ---- identifiers -----------------------------------------------------------------------------

  /** v is the value of the first pair with this key, or Null when there is none. */
  ghost predicate IsValueOf(v: Json, fields: seq<(string, Json)>, key: string) {
    || (v == Null && forall k :: 0 <= k < |fields| ==> fields[k].0 != key)
    || (exists k :: 0 <= k < |fields| && fields[k] == (key, v) && forall j :: 0 <= j < k ==> fields[j].0 != key)
  }

  lemma {:induction false} GetMeans(fields: seq<(string, Json)>, key: string)
    ensures IsValueOf(Get(fields, key), fields, key)
  {
    if fields != [] && fields[0].0 != key {
      var rest, v := fields[1..], Get(fields, key);
      GetMeans(rest, key);
      if k :| 0 <= k < |rest| && rest[k] == (key, v) && forall j :: 0 <= j < k ==> rest[j].0 != key {
        assert fields[k + 1] == (key, v);
        assert forall j :: 0 < j < k + 1 ==> fields[j] == rest[j - 1];
      } else {
        assert forall j :: 0 < j < |fields| ==> fields[j] == rest[j - 1];
      }
    }
  }

  /** Python's truth of a JSON value. */
  lemma TruthyMeans(j: Json)
    ensures !Truthy(j) <==> j in [Null, Bool(false), Int(0), Float(0.0), Str(""), Arr([]), Obj([])]
  {
  }

  /** v is the first of these values that is true, or the last one when none is. */
  ghost predicate IsFirstTrue(v: Json, options: seq<Json>) {
    exists i :: 0 <= i < |options| && v == options[i] && (Truthy(v) || i == |options| - 1)
                && forall j :: 0 <= j < i ==> !Truthy(options[j])
  }

  /** The first entry of cves, be it a list or a text. */
  function CveOf(cves: Json): Json {
    match cves
    case Arr(items) => if items == [] then Null else items[0]
    case Str(s) => if s == "" then Null else Str([s[0]])
    case _ => Null
  }

  /** The seven places an advisory's identifier is looked for, in order. */
  function IdPlaces(a: seq<(string, Json)>, py: Python): seq<Json> {
    [Get(a, "github_advisory_id"), Get(a, "url"), CveOf(Get(a, "cves")),
     if Get(a, "id") == Null then Null else Str(py.text(Get(a, "id"))),
     Get(a, "title"), Get(a, "advisory"), Get(a, "overview")]
  }

  /** The identifier of an advisory is the first true one of the seven. The search raises
      exactly when it gets to cves and finds something true that is no list and no text. */
  lemma PickMeans(a: seq<(string, Json)>, py: Python)
    ensures PickAdvisoryId(a, py) == None <==>
      (&& !Truthy(Get(a, "github_advisory_id")) && !Truthy(Get(a, "url"))
       && Truthy(Get(a, "cves")) && !Get(a, "cves").Arr? && !Get(a, "cves").Str?)
    ensures PickAdvisoryId(a, py).Some? ==> IsFirstTrue(PickAdvisoryId(a, py).value, IdPlaces(a, py))
  {
    if PickAdvisoryId(a, py).Some? {
      var v, places := PickAdvisoryId(a, py).value, IdPlaces(a, py);
      CveIs(Get(a, "cves"));
      FirstOfSeven(places, v);
    }
  }

  lemma CveIs(cves: Json)
    ensures FirstCve(cves).Some? ==> FirstCve(cves).value == CveOf(cves)
  {
  }

  lemma FirstOfSeven(places: seq<Json>, v: Json)
    requires |places| == 7
    requires v == Or(places[0], Or(places[1], Or(places[2], Or(places[3], Or(places[4], Or(places[5], places[6]))))))
    ensures IsFirstTrue(v, places)
  {
    var i := if Truthy(places[0]) then 0 else if Truthy(places[1]) then 1 else if Truthy(places[2]) then 2
             else if Truthy(places[3]) then 3 else if Truthy(places[4]) then 4 else if Truthy(places[5]) then 5 else 6;
    assert v == places[i];
  }

  /** A source names itself, or the first true of five fields does. */
  lemma SourceMeans(item: Json)
    ensures match item
      case Obj(f) =>
        IsFirstTrue(ViaSource(item), [Get(f, "github_advisory_id"), Get(f, "url"), Get(f, "source"), Get(f, "title"),
                                      Get(f, "name")])
      case Str(s) => ViaSource(item) == Str(s)
      case _ => ViaSource(item) == Null
  {
    if item.Obj? {
      var f := item.fields;
      FirstOfFive([Get(f, "github_advisory_id"), Get(f, "url"), Get(f, "source"), Get(f, "title"), Get(f, "name")],
                  ViaSource(item));
    }
  }

  lemma FirstOfFive(places: seq<Json>, v: Json)
    requires |places| == 5
    requires v == Or(places[0], Or(places[1], Or(places[2], Or(places[3], places[4]))))
    ensures IsFirstTrue(v, places)
  {
    var i := if Truthy(places[0]) then 0 else if Truthy(places[1]) then 1 else if Truthy(places[2]) then 2
             else if Truthy(places[3]) then 3 else 4;
    assert v == places[i];
  }

  /** A package is named by its module name if that is true, else by its name. */
  lemma PackageMeans(a: seq<(string, Json)>)
    ensures IsFirstTrue(PackageName(a), [Get(a, "module_name"), Get(a, "name")])
  {
    var places := [Get(a, "module_name"), Get(a, "name")];
    assert PackageName(a) == places[if Truthy(places[0]) then 0 else 1];
  }

  // ---- the findings of an accepted report, in order ----------------------------------------------

  /** The finding of an advisory. */
  ghost predicate IsOfAdvisory(f: Finding, a: seq<(string, Json)>, py: Python) {
    && IsFirstTrue(f.name, [Get(a, "module_name"), Get(a, "name")])
    && f.severity == Get(a, "severity")
    && IsFirstTrue(f.advisory, IdPlaces(a, py))
  }

  /** The finding of one source of a vulnerability. */
  ghost predicate IsOfSource(f: Finding, name: string, v: seq<(string, Json)>, item: Json) {
    && f.name == Str(name) && f.severity == Get(v, "severity")
    && match item
       case Obj(s) =>
         IsFirstTrue(f.advisory, [Get(s, "github_advisory_id"), Get(s, "url"), Get(s, "source"), Get(s, "title"),
                                  Get(s, "name")])
       case _ => f.advisory == item
  }

  /** One finding for each source in the via list, in order. */
  ghost predicate AreOfVulnerability(fs: seq<Finding>, name: string, v: seq<(string, Json)>) {
    && Get(v, "via").Arr? && |fs| == |Get(v, "via").items|
    && forall j :: 0 <= j < |fs| ==> IsOfSource(fs[j], name, v, Get(v, "via").items[j])
  }

  /** The advisories' findings come first, in order, then those of each vulnerability. */
  lemma FindingsInOrder(data: seq<(string, Json)>, py: Python) returns (first: seq<Finding>, then_: seq<seq<Finding>>)
    requires RecordsOk(data, py)
    ensures Iterable(data, py) && Findings(data, py) == first + Flatten(then_)
    ensures var advisories := if Get(data, "advisories").Obj? then Get(data, "advisories").fields else [];
      |first| == |advisories|
      && forall k :: 0 <= k < |first| ==> advisories[k].1.Obj? && IsOfAdvisory(first[k], advisories[k].1.fields, py)
    ensures var entries := if Get(data, "vulnerabilities").Obj? then Get(data, "vulnerabilities").fields else [];
      |then_| == |entries|
      && forall k :: 0 <= k < |then_| ==>
           entries[k].1.Obj? && AreOfVulnerability(then_[k], entries[k].0, entries[k].1.fields)
  {
    RecordsIterable(data, py);
    var advisories, entries := Section(data, "advisories"), Section(data, "vulnerabilities");
    first, then_ := AllAdvisories(advisories, py), AllVulnerabilities(entries);
    forall k | 0 <= k < |first|
      ensures IsOfAdvisory(first[k], advisories[k].1.fields, py)
    {
      PackageMeans(advisories[k].1.fields);
      PickMeans(advisories[k].1.fields, py);
    }
    forall k | 0 <= k < |then_|
      ensures AreOfVulnerability(then_[k], entries[k].0, entries[k].1.fields)
    {
      assert VulnerabilityOk(entries[k].0, entries[k].1);
      VulnerabilityYields(entries[k].0, entries[k].1);
    }
  }

  lemma VulnerabilityYields(name: string, v: Json)
    requires VulnerabilityOk(name, v)
    ensures AreOfVulnerability(VulnerabilityFindings(name, v), name, v.fields)
  {
    var items := Get(v.fields, "via").items;
    ViaYields(name, Get(v.fields, "severity"), items);
    forall j | 0 <= j < |items|
      ensures IsOfSource(VulnerabilityFindings(name, v)[j], name, v.fields, items[j])
    {
      assert SourceOk(items[j]);
      SourceMeans(items[j]);
    }
  }

  /** What a vulnerability, accepted or not, lists as its sources: a list gives its items and
      a text itself. */
  function Listed(via: Json): seq<Json> {
    match via
    case Arr(items) => items
    case Str(_) => [via]
    case _ => []
  }

  function SourcesOf(items: seq<Json>): seq<Json> {
    seq(|items|, j requires 0 <= j < |items| => ViaSource(items[j]))
  }

  function FindingsOf(name: string, severity: Json, ids: seq<Json>): seq<Finding> {
    seq(|ids|, j requires 0 <= j < |ids| => Finding(Str(name), severity, ids[j]))
  }

  /** Whatever a vulnerability lists, it yields a finding for each source that is true, in
      order, and none for the others. */
  lemma SourcesYield(name: string, v: Json)
    requires v.Obj?
    ensures VulnerabilityFindings(name, v)
      == FindingsOf(name, Get(v.fields, "severity"), Filter(SourcesOf(Listed(Get(v.fields, "via"))), Truthy))
  {
    assert Via(v.fields) == Listed(Get(v.fields, "via"));
    ItemsYield(name, Get(v.fields, "severity"), Via(v.fields));
  }

  lemma {:induction false} ItemsYield(name: string, severity: Json, items: seq<Json>)
    ensures ViaFindings(name, severity, items) == FindingsOf(name, severity, Filter(SourcesOf(items), Truthy))
  {
    if items != [] {
      var n := |items| - 1;
      ItemsYield(name, severity, items[..n]);
      assert SourcesOf(items) == SourcesOf(items[..n]) + [ViaSource(items[n])];
      FilterSnoc(SourcesOf(items[..n]), ViaSource(items[n]), Truthy);
    }
  }

  // ---- accepted reports --------------------------------------------------------------------------

  /** A level that reports may carry. */
  predicate IsLevelName(j: Json) {
    j == Str("info") || j == Str("low") || j == Str("moderate") || j == Str("high") || j == Str("critical")
  }

  predicate IsCount(counts: Json, level: string) {
    counts.Obj? && Get(counts.fields, level).Int? && Get(counts.fields, level).n >= 0
  }

  /** The advisory names a package, a level and an identifier, and looking for the
      identifier does not raise. */
  predicate IsAccepted(a: Json, py: Python) {
    && a.Obj?
    && (Truthy(Get(a.fields, "module_name")) || Truthy(Get(a.fields, "name")))
    && IsLevelName(Get(a.fields, "severity"))
    && (exists i :: 0 <= i < 7 && Truthy(IdPlaces(a.fields, py)[i]))
    && (Truthy(Get(a.fields, "github_advisory_id")) || Truthy(Get(a.fields, "url")) || !Truthy(Get(a.fields, "cves"))
        || Get(a.fields, "cves").Arr? || Get(a.fields, "cves").Str?)
  }

  lemma LevelsAre(j: Json)
    ensures IsLevel(j) <==> IsLevelName(j)
  {
    assert LEVELS[0] == "info" && LEVELS[1] == "low" && LEVELS[2] == "moderate" && LEVELS[3] == "high";
    assert LEVELS[4] == "critical" && |LEVELS| == 5;
  }

  /** The validator accepts exactly these advisories. */
  lemma AdvisoryAccepted(a: Json, py: Python)
    ensures AdvisoryOk(a, py) <==> IsAccepted(a, py)
  {
    if a.Obj? {
      var places := IdPlaces(a.fields, py);
      LevelsAre(Get(a.fields, "severity"));
      PackageMeans(a.fields);
      PickMeans(a.fields, py);
      assert Truthy(PackageName(a.fields)) <==> Truthy(Get(a.fields, "module_name")) || Truthy(Get(a.fields, "name"));
      if PickAdvisoryId(a.fields, py).Some? {
        TrueIffSome(PickAdvisoryId(a.fields, py).value, places);
      }
    }
  }

  lemma TrueIffSome(v: Json, places: seq<Json>)
    requires IsFirstTrue(v, places)
    ensures Truthy(v) <==> exists i :: 0 <= i < |places| && Truthy(places[i])
  {
  }

  /** The counts are there when each of the five levels has a whole number that is not
      negative. */
  lemma CountsMean(counts: Json)
    ensures CountsOk(counts) <==>
      (&& IsCount(counts, "info") && IsCount(counts, "low") && IsCount(counts, "moderate")
       && IsCount(counts, "high") && IsCount(counts, "critical"))
  {
    assert LEVELS[0] == "info" && LEVELS[1] == "low" && LEVELS[2] == "moderate" && LEVELS[3] == "high";
    assert LEVELS[4] == "critical" && |LEVELS| == 5;
    if counts.Obj? {
      assert CountsOk(counts) <==> forall i :: 0 <= i < 5 ==> Count(counts.fields, LEVELS[i]) >= 0;
    }
  }

  /** The vulnerability has a name, a level and a list of sources, each of them a text or an
      object with an identifier. */
  predicate IsAcceptedVulnerability(name: string, v: Json) {
    && name != "" && v.Obj? && IsLevelName(Get(v.fields, "severity"))
    && match Get(v.fields, "via")
       case Arr(items) =>
         && items != []
         && forall k :: 0 <= k < |items| ==> IsAcceptedSource(items[k])
       case _ => false
  }

  predicate IsAcceptedSource(item: Json) {
    match item
    case Str(s) => s != ""
    case Obj(f) => Truthy(Get(f, "github_advisory_id")) || Truthy(Get(f, "url")) || Truthy(Get(f, "source"))
    case _ => false
  }

  lemma VulnerabilityAccepted(name: string, v: Json)
    ensures VulnerabilityOk(name, v) <==> IsAcceptedVulnerability(name, v)
  {
    if v.Obj? {
      LevelsAre(Get(v.fields, "severity"));
      if Get(v.fields, "via").Arr? {
        var items := Get(v.fields, "via").items;
        assert forall k :: 0 <= k < |items| ==> (SourceOk(items[k]) <==> IsAcceptedSource(items[k]));
      }
    }
  }

  function Entries(data: seq<(string, Json)>, key: string): seq<(string, Json)> {
    match Get(data, key) case Obj(entries) => entries case _ => []
  }

  /** Some advisory or vulnerability is high or critical. */
  ghost predicate NamesHigh(data: seq<(string, Json)>) {
    exists key, k ::
      && (key == "advisories" || key == "vulnerabilities") && 0 <= k < |Entries(data, key)|
      && HighEntry(Entries(data, key)[k].1)
  }

  predicate HighEntry(j: Json) {
    j.Obj? && (Get(j.fields, "severity") == Str("high") || Get(j.fields, "severity") == Str("critical"))
  }

  /** The levels are counted. */
  predicate Counted(data: seq<(string, Json)>) {
    match Get(data, "metadata")
    case Obj(m) =>
      var counts := Get(m, "vulnerabilities");
      && IsCount(counts, "info") && IsCount(counts, "low") && IsCount(counts, "moderate")
      && IsCount(counts, "high") && IsCount(counts, "critical")
    case _ => false
  }

  /** Something high or critical is counted. */
  predicate CountsHigh(data: seq<(string, Json)>)
    requires Counted(data)
  {
    var counts := Get(Get(data, "metadata").fields, "vulnerabilities").fields;
    Get(counts, "high").n > 0 || Get(counts, "critical").n > 0
  }

  /** The section is absent, or an object. */
  predicate IsSection(data: seq<(string, Json)>, key: string) {
    (forall k :: 0 <= k < |data| ==> data[k].0 != key) || Get(data, key).Obj?
  }

  lemma SectionIs(data: seq<(string, Json)>, key: string)
    ensures Has(data, key) <==> exists k :: 0 <= k < |data| && data[k].0 == key
    ensures Get(data, key).Obj? ==> Has(data, key)
    ensures Section(data, key) == Entries(data, key)
  {
    GetMeans(data, key);
  }

  lemma CountedIs(data: seq<(string, Json)>)
    ensures Counts(data).Some? && CountsOk(Counts(data).value) <==> Counted(data)
    ensures Counted(data) ==>
      var counts := Counts(data).value.fields;
      Count(counts, "high") + Count(counts, "critical") > 0 <==> CountsHigh(data)
  {
    SectionIs(data, "metadata");
    if Get(data, "metadata").Obj? {
      CountsMean(Get(Get(data, "metadata").fields, "vulnerabilities"));
    }
  }

  lemma NamesHighIs(data: seq<(string, Json)>)
    ensures HighRecord(data) <==> NamesHigh(data)
  {
    SectionIs(data, "advisories");
    SectionIs(data, "vulnerabilities");
    var a, v := Entries(data, "advisories"), Entries(data, "vulnerabilities");
    if k :| 0 <= k < |a| && HighEntry(a[k].1) {
      assert HighEntry(Entries(data, "advisories")[k].1);
    }
    if k :| 0 <= k < |v| && HighEntry(v[k].1) {
      assert HighEntry(Entries(data, "vulnerabilities")[k].1);
    }
  }

  /** Every record is one the validator accepts. */
  ghost predicate RecordsAccepted(data: seq<(string, Json)>, py: Python) {
    && (forall k :: 0 <= k < |Entries(data, "advisories")| ==> IsAccepted(Entries(data, "advisories")[k].1, py))
    && (forall k :: 0 <= k < |Entries(data, "vulnerabilities")| ==>
          IsAcceptedVulnerability(Entries(data, "vulnerabilities")[k].0, Entries(data, "vulnerabilities")[k].1))
  }

  lemma RecordsAre(data: seq<(string, Json)>, py: Python)
    ensures RecordsOk(data, py) <==> RecordsAccepted(data, py)
  {
    SectionIs(data, "advisories");
    SectionIs(data, "vulnerabilities");
    var a, v := Entries(data, "advisories"), Entries(data, "vulnerabilities");
    forall k | 0 <= k < |a|
      ensures AdvisoryOk(a[k].1, py) <==> IsAccepted(a[k].1, py)
    {
      AdvisoryAccepted(a[k].1, py);
    }
    forall k | 0 <= k < |v|
      ensures VulnerabilityOk(v[k].0, v[k].1) <==> IsAcceptedVulnerability(v[k].0, v[k].1)
    {
      VulnerabilityAccepted(v[k].0, v[k].1);
    }
  }

  /** The report holds a list of findings and no error, counts every level, has only records
      that can be accepted, and counts something high exactly when a record is high; the
      exit code, if given, is one exactly then. */
  ghost predicate ReportAccepted(report: Json, exitCode: Option<int>, py: Python) {
    && report.Obj?
    && (forall k :: 0 <= k < |report.fields| ==> report.fields[k].0 != "error")
    && (Get(report.fields, "advisories").Obj? || Get(report.fields, "vulnerabilities").Obj?)
    && IsSection(report.fields, "advisories") && IsSection(report.fields, "vulnerabilities")
    && RecordsAccepted(report.fields, py)
    && Counted(report.fields) && (CountsHigh(report.fields) <==> NamesHigh(report.fields))
    && (exitCode == None || exitCode == Some(0) || exitCode == Some(1))
    && (exitCode == Some(1) ==> NamesHigh(report.fields)) && (exitCode == Some(0) ==> !NamesHigh(report.fields))
  }

  /** The complete reports are exactly these. */
  lemma CompleteMeans(report: Json, exitCode: Option<int>, py: Python)
    ensures Complete(report, exitCode, py) <==> ReportAccepted(report, exitCode, py)
  {
    if report.Obj? {
      var data := report.fields;
      SectionIs(data, "error");
      SectionIs(data, "advisories");
      SectionIs(data, "vulnerabilities");
      CountedIs(data);
      RecordsAre(data, py);
      NamesHighIs(data);
    }
  }
}
