/** The verdict of tools/check_pnpm_audit_exceptions.py: the index of exceptions, the
    matching of findings, and the exit code. */
module AuditVerdict {
  import opened AuditReport
  import opened ExceptionFile
  import opened Text
  import opened Wrappers

  // ---- normalised keys ---------------------------------------------------------------

  type Key = (string, string)

  function NormalizeSeverity(s: string, py: Python): string {
    py.lower(Trim(s))
  }

  function NormalizePackage(name: Json, py: Python): string {
    if name == Null then "" else Trim(py.text(name))
  }

  function NormalizeAdvisory(id: Json, py: Python): string {
    if id == Null then "" else py.lower(Trim(py.text(id)))
  }

  function SeverityOf(f: Finding, py: Python): string {
    NormalizeSeverity(if f.severity.Str? then f.severity.s else "", py)
  }

  function KeyOf(f: Finding, py: Python): Key {
    (NormalizePackage(f.name, py), NormalizeAdvisory(f.advisory, py))
  }

  /** The findings main looks at. */
  predicate Considered(f: Finding, py: Python) {
    (SeverityOf(f, py) == "high" || SeverityOf(f, py) == "critical") && Truthy(f.name)
  }

  /** In an accepted report main considers exactly the findings the validator counts as
      high: there the raw and the normalised level pick out the same ones. */
  lemma RawAndNormalizedAgree(f: Finding, py: Python)
    requires Faithful(py) && WellFormed(f)
    ensures SeverityOf(f, py) == f.severity.s && (Considered(f, py) <==> IsHigh(f.severity))
  {
    assert forall level :: level in LEVELS ==> Stripped(level, IsPySpace);
    StripStripped(f.severity.s, IsPySpace);
  }

  // ---- exceptions ----------------------------------------------------------------------

  const REQUIRED_FIELDS: seq<string> := ["package", "advisory", "severity", "mitigation", "expires_on"]

  function Value(r: Record, field: string): string {
    Lookup(r, field).Or("")
  }

  predicate FieldsPresent(r: Record) {
    forall field :: field in REQUIRED_FIELDS ==> Value(r, field) != ""
  }

  function ExceptionKey(r: Record, py: Python): Key {
    (Trim(Value(r, "package")), py.lower(Trim(Value(r, "advisory"))))
  }

  function Expiry(r: Record, py: Python): Option<int> {
    py.date(Value(r, "expires_on"))
  }

  function ExceptionSeverity(r: Record, py: Python): string {
    NormalizeSeverity(Value(r, "severity"), py)
  }

  datatype Excuse = Excuse(severity: string, expires: int)

  datatype Problem =
    | Incomplete(r: Record) | BadDate(r: Record) | BlankKey(r: Record) | Duplicate(r: Record)
    | NoAdvisory(f: Finding) | Mismatch(f: Finding)

  /** What main makes of one exception: what is wrong with it, if anything, the key it
      is filed under and the excuse it gives. */
  datatype Rules = Rules(problem: Record -> Option<Problem>, key: Record -> Key, excuse: Record -> Excuse)

  function RecordProblem(r: Record, py: Python): Option<Problem> {
    if !FieldsPresent(r) then Some(Incomplete(r))
    else if Expiry(r, py).None? then Some(BadDate(r))
    else if ExceptionKey(r, py).0 == "" || ExceptionKey(r, py).1 == "" then Some(BlankKey(r))
    else None
  }

  function RulesOf(py: Python): Rules {
    Rules(r => RecordProblem(r, py), r => ExceptionKey(r, py),
          r => Excuse(ExceptionSeverity(r, py), Expiry(r, py).Or(0)))
  }

  /** The excuse of the first sound exception with this key. */
  function Excused(exceptions: seq<Record>, key: Key, rules: Rules): Option<Excuse> {
    if exceptions == [] then None
    else
      var before, r := exceptions[..|exceptions| - 1], exceptions[|exceptions| - 1];
      if Excused(before, key, rules).Some? then Excused(before, key, rules)
      else if rules.problem(r) == None && rules.key(r) == key then Some(rules.excuse(r))
      else None
  }

  /** What is wrong with an exception that follows others. */
  function ExceptionProblem(before: seq<Record>, r: Record, rules: Rules): seq<Problem> {
    if rules.problem(r).Some? then [rules.problem(r).value]
    else if Excused(before, rules.key(r), rules).Some? then [Duplicate(r)]
    else []
  }

  function ExceptionProblems(exceptions: seq<Record>, rules: Rules): seq<Problem> {
    if exceptions == [] then []
    else
      var before, r := exceptions[..|exceptions| - 1], exceptions[|exceptions| - 1];
      ExceptionProblems(before, rules) + ExceptionProblem(before, r, rules)
  }

  ghost predicate Indexes(index: map<Key, Excuse>, exceptions: seq<Record>, rules: Rules) {
    forall key :: (if key in index then Some(index[key]) else None) == Excused(exceptions, key, rules)
  }

  /** Checks one exception and normalises its fields: it passes exactly when every
      required field is there, the date is valid and neither part of the key is blank.
      What is missing is reported before a bad date, and that before a blank key. */
  method ReadException(exc: Record, py: Python) returns (problem: Option<Problem>, key: Key, excuse: Excuse)
    ensures problem == None <==>
      && (forall field :: field in REQUIRED_FIELDS ==> field in exc && exc[field] != "")
      && py.date(Value(exc, "expires_on")).Some?
      && Trim(Value(exc, "package")) != "" && py.lower(Trim(Value(exc, "advisory"))) != ""
    ensures problem == Some(Incomplete(exc)) <==>
      exists field :: field in REQUIRED_FIELDS && (field in exc ==> exc[field] == "")
    ensures problem == Some(BadDate(exc)) <==>
      problem != Some(Incomplete(exc)) && py.date(Value(exc, "expires_on")) == None
    ensures problem == None ==>
      && key == (Trim(Value(exc, "package")), py.lower(Trim(Value(exc, "advisory"))))
      && excuse.severity == py.lower(Trim(Value(exc, "severity")))
      && py.date(Value(exc, "expires_on")) == Some(excuse.expires)
    ensures var rules := RulesOf(py);
      problem == rules.problem(exc) && (problem == None ==> key == rules.key(exc) && excuse == rules.excuse(exc))
  {
    key, excuse := ("", ""), Excuse("", 0);
    if !FieldsPresent(exc) {
      return Some(Incomplete(exc)), key, excuse;
    }
    key := ExceptionKey(exc, py);
    var date := Expiry(exc, py);
    if date.None? {
      return Some(BadDate(exc)), key, excuse;
    }
    if key.0 == "" || key.1 == "" {
      return Some(BlankKey(exc)), key, excuse;
    }
    problem, excuse := None, Excuse(ExceptionSeverity(exc, py), date.value);
  }

  method BuildIndex(exceptions: seq<Record>, py: Python) returns (index: map<Key, Excuse>, errors: seq<Problem>)
    ensures Indexes(index, exceptions, RulesOf(py))
    ensures errors == ExceptionProblems(exceptions, RulesOf(py))
  {
    index, errors := map[], [];
    ghost var rules := RulesOf(py);
    for i := 0 to |exceptions|
      invariant Indexes(index, exceptions[..i], rules)
      invariant errors == ExceptionProblems(exceptions[..i], rules)
    {
      var exc := exceptions[i];
      assert exceptions[..i + 1][..i] == exceptions[..i];
      var problem, key, excuse := ReadException(exc, py);
      if problem.Some? {
        errors := errors + [problem.value];
      } else if key in index {
        errors := errors + [Duplicate(exc)];
      } else {
        index := index[key := excuse];
      }
    }
    assert exceptions[..|exceptions|] == exceptions;
  }

  // ---- matching --------------------------------------------------------------------------

  /** What main takes from a finding. */
  datatype View = View(considered: Finding -> bool, key: Finding -> Key, severity: Finding -> string)

  function ViewOf(py: Python): View {
    View(f => Considered(f, py), f => KeyOf(f, py), f => SeverityOf(f, py))
  }

  /** The severity of the first considered finding with this key. */
  function FirstSeverity(findings: seq<Finding>, key: Key, view: View): Option<string> {
    if findings == [] then None
    else
      var before, f := findings[..|findings| - 1], findings[|findings| - 1];
      if FirstSeverity(before, key, view).Some? then FirstSeverity(before, key, view)
      else if view.considered(f) && view.key(f) == key then Some(view.severity(f))
      else None
  }

  /** f, coming after others, is judged: it is considered, names an advisory, and is the
      first with its key. */
  predicate IsJudged(before: seq<Finding>, f: Finding, view: View) {
    view.considered(f) && view.key(f).1 != "" && FirstSeverity(before, view.key(f), view).None?
  }

  /** The findings that are judged, in order. */
  function Judged(findings: seq<Finding>, view: View): seq<Finding> {
    if findings == [] then []
    else
      var before, f := findings[..|findings| - 1], findings[|findings| - 1];
      Judged(before, view) + if IsJudged(before, f, view) then [f] else []
  }

  function Uncovered(index: map<Key, Excuse>, view: View): Finding -> bool {
    f => view.key(f) !in index
  }

  function Expired(index: map<Key, Excuse>, today: int, view: View): Finding -> bool {
    f => view.key(f) in index && index[view.key(f)].expires < today
  }

  predicate Mismatched(f: Finding, index: map<Key, Excuse>, view: View) {
    && view.key(f) in index
    && index[view.key(f)].severity != "" && index[view.key(f)].severity != view.severity(f)
  }

  /** What errors gets for a finding that follows others. */
  function FindingProblem(before: seq<Finding>, f: Finding, index: map<Key, Excuse>, view: View): seq<Problem> {
    if view.considered(f) && view.key(f).1 == "" then [NoAdvisory(f)]
    else if IsJudged(before, f, view) && Mismatched(f, index, view) then [Mismatch(f)]
    else []
  }

  function FindingProblems(findings: seq<Finding>, index: map<Key, Excuse>, view: View): seq<Problem> {
    if findings == [] then []
    else
      var before, f := findings[..|findings| - 1], findings[|findings| - 1];
      FindingProblems(before, index, view) + FindingProblem(before, f, index, view)
  }

  /** How one more finding changes what has been judged and reported. */
  lemma OneMore(before: seq<Finding>, f: Finding, index: map<Key, Excuse>, today: int, view: View)
    ensures var all := before + [f];
      && (forall key :: FirstSeverity(all, key, view) ==
            if FirstSeverity(before, key, view).Some? then FirstSeverity(before, key, view)
            else if view.considered(f) && view.key(f) == key then Some(view.severity(f))
            else None)
      && FindingProblems(all, index, view)
         == FindingProblems(before, index, view) + FindingProblem(before, f, index, view)
    ensures Filter(Judged(before + [f], view), Uncovered(index, view))
      == Filter(Judged(before, view), Uncovered(index, view))
         + if IsJudged(before, f, view) && Uncovered(index, view)(f) then [f] else []
    ensures Filter(Judged(before + [f], view), Expired(index, today, view))
      == Filter(Judged(before, view), Expired(index, today, view))
         + if IsJudged(before, f, view) && Expired(index, today, view)(f) then [f] else []
  {
    assert (before + [f])[..|before|] == before;
    FilterSnoc(Judged(before, view), f, Uncovered(index, view));
    FilterSnoc(Judged(before, view), f, Expired(index, today, view));
    assert Judged(before, view) + [] == Judged(before, view);
  }

  /** Holds one finding against the index. */
  method Judge(f: Finding, index: map<Key, Excuse>, today: int, view: View)
    returns (errors: seq<Problem>, missing: seq<Finding>, expired: seq<Finding>)
    ensures errors == if Mismatched(f, index, view) then [Mismatch(f)] else []
    ensures missing == if Uncovered(index, view)(f) then [f] else []
    ensures expired == if Expired(index, today, view)(f) then [f] else []
  {
    errors, missing, expired := [], [], [];
    var key := view.key(f);
    if key !in index {
      return [], [f], [];
    }
    if index[key].severity != "" && index[key].severity != view.severity(f) {
      errors := [Mismatch(f)];
    }
    if index[key].expires < today {
      expired := [f];
    }
  }

  /** f is judged when these keys have been seen. */
  predicate JudgedAfter(seen: set<Key>, f: Finding, view: View) {
    view.considered(f) && view.key(f).1 != "" && view.key(f) !in seen
  }

  /** The body of the matching loop: skips what is not considered, reports a finding that
      names no advisory, skips a key that was seen, and judges the rest. */
  method MatchOne(f: Finding, seen: set<Key>, index: map<Key, Excuse>, today: int, view: View)
    returns (next: set<Key>, errors: seq<Problem>, missing: seq<Finding>, expired: seq<Finding>)
    ensures next == if JudgedAfter(seen, f, view) then seen + {view.key(f)} else seen
    ensures errors ==
      if view.considered(f) && view.key(f).1 == "" then [NoAdvisory(f)]
      else if JudgedAfter(seen, f, view) && Mismatched(f, index, view) then [Mismatch(f)]
      else []
    ensures missing == if JudgedAfter(seen, f, view) && Uncovered(index, view)(f) then [f] else []
    ensures expired == if JudgedAfter(seen, f, view) && Expired(index, today, view)(f) then [f] else []
  {
    next, errors, missing, expired := seen, [], [], [];
    if !view.considered(f) {
      return;
    }
    var key := view.key(f);
    if key.1 == "" {
      errors := [NoAdvisory(f)];
      return;
    }
    if key in seen {
      return;
    }
    next := seen + {key};
    errors, missing, expired := Judge(f, index, today, view);
  }

  /** The loop's invariant: what the findings so far have left in its variables. */
  ghost predicate Matched(before: seq<Finding>, index: map<Key, Excuse>, today: int, view: View, seen: set<Key>,
                          errors: seq<Problem>, missing: seq<Finding>, expired: seq<Finding>)
  {
    && (forall key :: key in seen <==> key.1 != "" && FirstSeverity(before, key, view).Some?)
    && errors == FindingProblems(before, index, view)
    && missing == Filter(Judged(before, view), Uncovered(index, view))
    && expired == Filter(Judged(before, view), Expired(index, today, view))
  }

  method MatchNext(f: Finding, seen: set<Key>, index: map<Key, Excuse>, today: int, view: View,
                   ghost before: seq<Finding>, errors: seq<Problem>, missing: seq<Finding>, expired: seq<Finding>)
    returns (next: set<Key>, e: seq<Problem>, m: seq<Finding>, x: seq<Finding>)
    requires Matched(before, index, today, view, seen, errors, missing, expired)
    ensures Matched(before + [f], index, today, view, next, e, m, x)
  {
    OneMore(before, f, index, today, view);
    assert IsJudged(before, f, view) <==> JudgedAfter(seen, f, view);
    next, e, m, x := MatchOne(f, seen, index, today, view);
    e, m, x := errors + e, missing + m, expired + x;
  }

  method MatchFindings(findings: seq<Finding>, index: map<Key, Excuse>, today: int, view: View)
    returns (errors: seq<Problem>, missing: seq<Finding>, expired: seq<Finding>)
    ensures errors == FindingProblems(findings, index, view)
    ensures missing == Filter(Judged(findings, view), Uncovered(index, view))
    ensures expired == Filter(Judged(findings, view), Expired(index, today, view))
  {
    errors, missing, expired := [], [], [];
    var seen: set<Key> := {};
    for k := 0 to |findings|
      invariant Matched(findings[..k], index, today, view, seen, errors, missing, expired)
    {
      assert findings[..k + 1] == findings[..k] + [findings[k]];
      seen, errors, missing, expired :=
        MatchNext(findings[k], seen, index, today, view, findings[..k], errors, missing, expired);
    }
    assert findings[..|findings|] == findings;
  }

  // ---- the verdict ----------------------------------------------------------------------

  /** Every exception is sound and no two have the same key. */
  ghost predicate ListSound(exceptions: seq<Record>, rules: Rules) {
    && (forall i :: 0 <= i < |exceptions| ==> rules.problem(exceptions[i]) == None)
    && (forall i, j :: 0 <= i < j < |exceptions| ==>
          rules.key(exceptions[i]) != rules.key(exceptions[j]))
  }

  predicate Excuses(x: Excuse, severity: string, today: int) {
    x.expires >= today && (x.severity == "" || x.severity == severity)
  }

  /** Exception i has this key, has not expired, and its severity is blank or this one. */
  ghost predicate CoveredBy(exceptions: seq<Record>, i: int, key: Key, severity: string, today: int, rules: Rules) {
    && 0 <= i < |exceptions| && rules.problem(exceptions[i]) == None
    && rules.key(exceptions[i]) == key && Excuses(rules.excuse(exceptions[i]), severity, today)
  }

  ghost predicate Covered(exceptions: seq<Record>, key: Key, severity: string, today: int, rules: Rules) {
    exists i :: CoveredBy(exceptions, i, key, severity, today, rules)
  }

  /** A finding main considers names an advisory and is covered at the severity of the
      first considered finding with its key. */
  ghost predicate Excusable(exceptions: seq<Record>, findings: seq<Finding>, f: Finding, today: int,
                            rules: Rules, view: View) {
    view.considered(f) ==>
      && view.key(f).1 != ""
      && Covered(exceptions, view.key(f), FirstSeverity(findings, view.key(f), view).Or(""), today, rules)
  }

  ghost predicate Verdict(exceptions: seq<Record>, findings: seq<Finding>, today: int, rules: Rules, view: View) {
    && ListSound(exceptions, rules)
    && forall f :: f in findings ==> Excusable(exceptions, findings, f, today, rules, view)
  }

  // The lists of problems are empty exactly when the verdict is good.

  /** With a sound list, the excuse for a key is that of the one exception with it. */
  lemma {:induction false} ExcusedIs(exceptions: seq<Record>, key: Key, rules: Rules)
    requires ListSound(exceptions, rules)
    ensures forall i :: 0 <= i < |exceptions| && rules.key(exceptions[i]) == key ==>
      Excused(exceptions, key, rules) == Some(rules.excuse(exceptions[i]))
    ensures Excused(exceptions, key, rules).Some? ==>
      exists i :: 0 <= i < |exceptions| && rules.key(exceptions[i]) == key
  {
    if exceptions != [] {
      var n := |exceptions| - 1;
      assert ListSound(exceptions[..n], rules);
      ExcusedIs(exceptions[..n], key, rules);
      if Excused(exceptions[..n], key, rules).Some? {
        var i :| 0 <= i < n && rules.key(exceptions[..n][i]) == key;
        assert rules.key(exceptions[i]) == key;
      }
    }
  }

  lemma ListSoundNext(before: seq<Record>, r: Record, rules: Rules)
    ensures ListSound(before + [r], rules) <==>
      && ListSound(before, rules) && rules.problem(r) == None
      && forall i :: 0 <= i < |before| ==> rules.key(before[i]) != rules.key(r)
  {
    var all := before + [r];
    assert all[|before|] == r && forall i :: 0 <= i < |before| ==> all[i] == before[i];
  }

  lemma {:induction false} NoExceptionProblems(exceptions: seq<Record>, rules: Rules)
    ensures ExceptionProblems(exceptions, rules) == [] <==> ListSound(exceptions, rules)
  {
    if exceptions != [] {
      var n := |exceptions| - 1;
      var before, r := exceptions[..n], exceptions[n];
      assert exceptions == before + [r];
      NoExceptionProblems(before, rules);
      ListSoundNext(before, r, rules);
      if ListSound(before, rules) {
        ExcusedIs(before, rules.key(r), rules);
      }
    }
  }

  lemma CoveredIsExcused(exceptions: seq<Record>, key: Key, severity: string, today: int, rules: Rules)
    requires ListSound(exceptions, rules)
    ensures Covered(exceptions, key, severity, today, rules) <==>
      Excused(exceptions, key, rules).Some? && Excuses(Excused(exceptions, key, rules).value, severity, today)
  {
    ExcusedIs(exceptions, key, rules);
    if Excused(exceptions, key, rules).Some? && Excuses(Excused(exceptions, key, rules).value, severity, today) {
      var i :| 0 <= i < |exceptions| && rules.key(exceptions[i]) == key;
      assert CoveredBy(exceptions, i, key, severity, today, rules);
    }
    if i :| CoveredBy(exceptions, i, key, severity, today, rules) {
      assert Excused(exceptions, key, rules) == Some(rules.excuse(exceptions[i]));
    }
  }

  /** The judged findings stand for all: one for each key that is considered and not
      blank, at the first severity seen for it. */
  lemma {:induction false} JudgedStandForAll(findings: seq<Finding>, view: View)
    ensures forall f :: f in Judged(findings, view) ==>
      && f in findings && view.considered(f) && view.key(f).1 != ""
      && FirstSeverity(findings, view.key(f), view) == Some(view.severity(f))
    ensures forall f :: f in findings && view.considered(f) ==> FirstSeverity(findings, view.key(f), view).Some?
    ensures forall key: Key :: FirstSeverity(findings, key, view).Some? && key.1 != "" ==>
      exists f :: f in Judged(findings, view) && view.key(f) == key
  {
    if findings != [] {
      var n := |findings| - 1;
      var before, f := findings[..n], findings[n];
      JudgedStandForAll(before, view);
      assert findings == before + [f];
      var earlier := Judged(before, view);
      var all := Judged(findings, view);
      assert all == earlier + if IsJudged(before, f, view) then [f] else [];
      forall key: Key | FirstSeverity(findings, key, view).Some? && key.1 != ""
        ensures exists g :: g in all && view.key(g) == key
      {
        if FirstSeverity(before, key, view).Some? {
          var g :| g in earlier && view.key(g) == key;
          assert g in all;
        } else {
          assert f in all;
        }
      }
    }
  }

  /** No finding problems: every considered finding names an advisory, and no judged
      one has a mismatching exception. */
  lemma {:induction false} NoFindingProblems(findings: seq<Finding>, index: map<Key, Excuse>, view: View)
    ensures FindingProblems(findings, index, view) == [] <==>
      && (forall f :: f in findings && view.considered(f) ==> view.key(f).1 != "")
      && (forall f :: f in Judged(findings, view) ==> !Mismatched(f, index, view))
  {
    if findings != [] {
      var n := |findings| - 1;
      var before, f := findings[..n], findings[n];
      assert findings == before + [f];
      NoFindingProblems(before, index, view);
    }
  }

  /** A judged finding the index finds nothing wrong with is one it excuses. */
  lemma JudgedCovered(exceptions: seq<Record>, index: map<Key, Excuse>, f: Finding, today: int, rules: Rules, view: View)
    requires ListSound(exceptions, rules) && Indexes(index, exceptions, rules)
    ensures !Uncovered(index, view)(f) && !Expired(index, today, view)(f) && !Mismatched(f, index, view) <==>
      Covered(exceptions, view.key(f), view.severity(f), today, rules)
  {
    CoveredIsExcused(exceptions, view.key(f), view.severity(f), today, rules);
    var x := Excused(exceptions, view.key(f), rules);
    assert (if view.key(f) in index then Some(index[view.key(f)]) else None) == x;
  }

  /** The index finds nothing wrong with any judged finding. */
  ghost predicate AllClear(findings: seq<Finding>, index: map<Key, Excuse>, today: int, view: View) {
    var judged := Judged(findings, view);
    && FindingProblems(findings, index, view) == []
    && Filter(judged, Uncovered(index, view)) == [] && Filter(judged, Expired(index, today, view)) == []
  }

  lemma ClearIsExcusable(exceptions: seq<Record>, findings: seq<Finding>, index: map<Key, Excuse>, f: Finding,
                         today: int, rules: Rules, view: View)
    requires ListSound(exceptions, rules) && Indexes(index, exceptions, rules)
    requires f in findings && AllClear(findings, index, today, view)
    ensures Excusable(exceptions, findings, f, today, rules, view)
  {
    if view.considered(f) {
      var judged := Judged(findings, view);
      JudgedStandForAll(findings, view);
      NoFindingProblems(findings, index, view);
      EmptyFilter(judged, Uncovered(index, view));
      EmptyFilter(judged, Expired(index, today, view));
      var g :| g in judged && view.key(g) == view.key(f);
      JudgedCovered(exceptions, index, g, today, rules, view);
    }
  }

  lemma ExcusableIsClear(exceptions: seq<Record>, findings: seq<Finding>, index: map<Key, Excuse>, today: int,
                         rules: Rules, view: View)
    requires Indexes(index, exceptions, rules) && Verdict(exceptions, findings, today, rules, view)
    ensures AllClear(findings, index, today, view)
  {
    var judged := Judged(findings, view);
    JudgedStandForAll(findings, view);
    forall f | f in judged
      ensures !Uncovered(index, view)(f) && !Expired(index, today, view)(f) && !Mismatched(f, index, view)
    {
      assert Excusable(exceptions, findings, f, today, rules, view);
      JudgedCovered(exceptions, index, f, today, rules, view);
    }
    NoFindingProblems(findings, index, view);
    assert forall f :: f in findings ==> Excusable(exceptions, findings, f, today, rules, view);
    EmptyFilter(judged, Uncovered(index, view));
    EmptyFilter(judged, Expired(index, today, view));
  }

  lemma ClearIsVerdict(exceptions: seq<Record>, findings: seq<Finding>, index: map<Key, Excuse>, today: int,
                       rules: Rules, view: View)
    requires ListSound(exceptions, rules) && Indexes(index, exceptions, rules)
    ensures AllClear(findings, index, today, view) <==> Verdict(exceptions, findings, today, rules, view)
  {
    if AllClear(findings, index, today, view) {
      forall f | f in findings
        ensures Excusable(exceptions, findings, f, today, rules, view)
      {
        ClearIsExcusable(exceptions, findings, index, f, today, rules, view);
      }
    }
    if Verdict(exceptions, findings, today, rules, view) {
      ExcusableIsClear(exceptions, findings, index, today, rules, view);
    }
  }

  lemma EmptyFilter<T(!new)>(s: seq<T>, p: T -> bool)
    ensures Filter(s, p) == [] <==> forall x :: x in s ==> !p(x)
  {
    FilterMembers(s, p);
    if Filter(s, p) != [] {
      assert Filter(s, p)[0] in Filter(s, p);
    }
  }

  // ---- the program -------------------------------------------------------------------------

  /** Indexes the exceptions and matches the findings; 0 is a clean exit. */
  method Decide(exceptions: seq<Record>, findings: seq<Finding>, today: int, py: Python) returns (code: int)
    ensures code == if Verdict(exceptions, findings, today, RulesOf(py), ViewOf(py)) then 0 else 1
  {
    ghost var rules := RulesOf(py);
    var view := ViewOf(py);
    var index, errors := BuildIndex(exceptions, py);
    var more, missing, expired := MatchFindings(findings, index, today, view);
    NoExceptionProblems(exceptions, rules);
    if ListSound(exceptions, rules) {
      ClearIsVerdict(exceptions, findings, index, today, rules, view);
    }
    errors := errors + more;
    code := if errors == [] && missing == [] && expired == [] then 0 else 1;
  }

  /** What a clean exit means: a complete report, an exception list that can be read,
      and a good verdict on the one way to group its lines. */
  ghost predicate Passes(report: Json, exitCode: Option<int>, lines: seq<string>, today: int, py: Python) {
    && Complete(report, exitCode, py) && Iterable(report.fields, py)
    && Broken !in Tokens(lines)
    && exists records :: Grouped(Tokens(lines), records)
         && Verdict(records, Findings(report.fields, py), today, RulesOf(py), ViewOf(py))
  }

  /** The program: validate the report, read the exceptions, decide. An exception line
      that is refused ends it with a traceback, which is exit code 1 as well. */
  method CheckAudit(report: Json, exitCode: Option<int>, lines: seq<string>, today: int, py: Python)
    returns (code: int)
    ensures code == if Passes(report, exitCode, lines, today, py) then 0 else 1
  {
    var ok := ValidateAudit(report, exitCode, py);
    if !ok {
      return 1;
    }
    RecordsIterable(report.fields, py);
    var parsed := ParseExceptions(lines);
    if parsed.Failure? {
      return 1;
    }
    var findings := IterVulns(report.fields, py);
    code := Decide(parsed.value, findings, today, py);
    forall records | Grouped(Tokens(lines), records)
      ensures records == parsed.value
    {
      GroupedUnique(Tokens(lines), records, parsed.value);
    }
  }
}
