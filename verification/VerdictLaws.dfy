/** What the audit verdict guarantees: how it reacts to time, to further findings and to
    their order, and what a clean exit says about the report. */
module VerdictLaws {
  import opened AuditReport
  import opened AuditVerdict
  import opened ExceptionFile
  import opened Text
  import opened Wrappers

  /** A good verdict on some day is good on every earlier day. */
  lemma EarlierDaysPass(exceptions: seq<Record>, findings: seq<Finding>, day: int, today: int, rules: Rules, view: View)
    requires day <= today && Verdict(exceptions, findings, today, rules, view)
    ensures Verdict(exceptions, findings, day, rules, view)
  {
    forall f | f in findings
      ensures Excusable(exceptions, findings, f, day, rules, view)
    {
      assert Excusable(exceptions, findings, f, today, rules, view);
      if view.considered(f) {
        var key, severity := view.key(f), FirstSeverity(findings, view.key(f), view).Or("");
        var i :| CoveredBy(exceptions, i, key, severity, today, rules);
        assert CoveredBy(exceptions, i, key, severity, day, rules);
      }
    }
  }

  /** So it is with the whole program: what exits cleanly on a day does so on every
      earlier day, with the same report and the same exception file. */
  lemma EarlierRunsPass(report: Json, exitCode: Option<int>, lines: seq<string>, day: int, today: int, py: Python)
    ensures Passes(report, exitCode, lines, today, py) && day <= today ==> Passes(report, exitCode, lines, day, py)
  {
    if Passes(report, exitCode, lines, today, py) && day <= today {
      var findings := Findings(report.fields, py);
      var records :| Grouped(Tokens(lines), records)
        && Verdict(records, findings, today, RulesOf(py), ViewOf(py));
      EarlierDaysPass(records, findings, day, today, RulesOf(py), ViewOf(py));
    }
  }

  lemma {:induction false} FirstStays(findings: seq<Finding>, more: seq<Finding>, key: Key, view: View)
    ensures FirstSeverity(findings, key, view).Some? ==>
      FirstSeverity(findings + more, key, view) == FirstSeverity(findings, key, view)
  {
    if more == [] {
      assert findings + more == findings;
    } else {
      var n := |more| - 1;
      assert (findings + more)[..|findings| + n] == findings + more[..n];
      FirstStays(findings, more[..n], key, view);
    }
  }

  /** Further findings never turn a bad verdict into a good one. */
  lemma MoreFindingsNeverHelp(exceptions: seq<Record>, findings: seq<Finding>, more: seq<Finding>, today: int,
                              rules: Rules, view: View)
    requires Verdict(exceptions, findings + more, today, rules, view)
    ensures Verdict(exceptions, findings, today, rules, view)
  {
    JudgedStandForAll(findings, view);
    forall f | f in findings
      ensures Excusable(exceptions, findings, f, today, rules, view)
    {
      assert f in findings + more;
      assert Excusable(exceptions, findings + more, f, today, rules, view);
      FirstStays(findings, more, view.key(f), view);
    }
  }

  predicate SameKey(f: Finding, g: Finding, view: View) {
    view.considered(f) && view.considered(g) && view.key(f) == view.key(g)
  }

  /** Each key carries a single severity. */
  ghost predicate SingleSeverity(findings: seq<Finding>, view: View) {
    forall f, g :: f in findings && g in findings && SameKey(f, g, view) ==> view.severity(f) == view.severity(g)
  }

  lemma {:induction false} FirstIsSome(findings: seq<Finding>, key: Key, view: View)
    ensures FirstSeverity(findings, key, view).Some? ==>
      exists f :: f in findings && view.considered(f) && view.key(f) == key
                  && FirstSeverity(findings, key, view) == Some(view.severity(f))
  {
    if findings != [] {
      var n := |findings| - 1;
      FirstIsSome(findings[..n], key, view);
      assert findings == findings[..n] + [findings[n]];
    }
  }

  /** With a single severity, the first severity of a finding's key is its own. */
  lemma FirstIsOwn(findings: seq<Finding>, f: Finding, view: View)
    requires SingleSeverity(findings, view) && f in findings && view.considered(f)
    ensures FirstSeverity(findings, view.key(f), view) == Some(view.severity(f))
  {
    JudgedStandForAll(findings, view);
    FirstIsSome(findings, view.key(f), view);
    var g :| g in findings && view.considered(g) && view.key(g) == view.key(f)
             && FirstSeverity(findings, view.key(f), view) == Some(view.severity(g));
    assert SameKey(f, g, view);
  }

  lemma SetDecides(exceptions: seq<Record>, a: seq<Finding>, b: seq<Finding>, today: int, rules: Rules, view: View)
    requires SingleSeverity(a, view) && SingleSeverity(b, view) && forall f :: f in b ==> f in a
    requires Verdict(exceptions, a, today, rules, view)
    ensures Verdict(exceptions, b, today, rules, view)
  {
    forall f | f in b
      ensures Excusable(exceptions, b, f, today, rules, view)
    {
      assert Excusable(exceptions, a, f, today, rules, view);
      if view.considered(f) {
        FirstIsOwn(a, f, view);
        FirstIsOwn(b, f, view);
      }
    }
  }

  /** When each key carries a single severity, the verdict depends only on which
      findings there are, so neither their order nor repeats matter. */
  lemma OrderDoesNotMatter(exceptions: seq<Record>, a: seq<Finding>, b: seq<Finding>, today: int,
                           rules: Rules, view: View)
    requires SingleSeverity(a, view) && forall f :: f in a <==> f in b
    ensures Verdict(exceptions, a, today, rules, view) <==> Verdict(exceptions, b, today, rules, view)
  {
    if Verdict(exceptions, a, today, rules, view) {
      SetDecides(exceptions, a, b, today, rules, view);
    }
    if Verdict(exceptions, b, today, rules, view) {
      SetDecides(exceptions, b, a, today, rules, view);
    }
  }

  lemma PermutingDoesNotMatter(exceptions: seq<Record>, a: seq<Finding>, b: seq<Finding>, today: int,
                               rules: Rules, view: View)
    requires SingleSeverity(a, view) && multiset(a) == multiset(b)
    ensures Verdict(exceptions, a, today, rules, view) <==> Verdict(exceptions, b, today, rules, view)
  {
    forall f
      ensures f in a <==> f in b
    {
      assert f in multiset(a) <==> f in multiset(b);
    }
    OrderDoesNotMatter(exceptions, a, b, today, rules, view);
  }

  // ---- only the first severity of a key is judged ----------------------------------------

  /** The stricter reading: every considered finding is covered at its own severity. */
  ghost predicate StrictVerdict(exceptions: seq<Record>, findings: seq<Finding>, today: int, rules: Rules, view: View) {
    && ListSound(exceptions, rules)
    && forall f :: f in findings && view.considered(f) ==>
         view.key(f).1 != "" && Covered(exceptions, view.key(f), view.severity(f), today, rules)
  }

  /** The exception for this key names a severity. */
  ghost predicate NamesSeverity(exceptions: seq<Record>, key: Key, rules: Rules) {
    exists i :: 0 <= i < |exceptions| && rules.key(exceptions[i]) == key && rules.excuse(exceptions[i]).severity != ""
  }

  /** The tool's verdict is the strict one exactly when, further, each finding whose
      exception names a severity has the severity of the first finding with its key. */
  lemma StrictExactly(exceptions: seq<Record>, findings: seq<Finding>, today: int, rules: Rules, view: View)
    ensures StrictVerdict(exceptions, findings, today, rules, view) <==>
      && Verdict(exceptions, findings, today, rules, view)
      && forall f :: f in findings && view.considered(f) && NamesSeverity(exceptions, view.key(f), rules) ==>
           FirstSeverity(findings, view.key(f), view) == Some(view.severity(f))
  {
    JudgedStandForAll(findings, view);
    if ListSound(exceptions, rules) {
      forall f | f in findings && view.considered(f)
        ensures var first := FirstSeverity(findings, view.key(f), view);
          && first.Some?
          && (Covered(exceptions, view.key(f), view.severity(f), today, rules) && first == Some(view.severity(f)) ==>
                Covered(exceptions, view.key(f), first.value, today, rules))
      {
      }
      if StrictVerdict(exceptions, findings, today, rules, view) {
        StrictIsVerdict(exceptions, findings, today, rules, view);
      }
      if Verdict(exceptions, findings, today, rules, view) {
        forall f | f in findings && view.considered(f)
            && (NamesSeverity(exceptions, view.key(f), rules) ==>
                  FirstSeverity(findings, view.key(f), view) == Some(view.severity(f)))
          ensures view.key(f).1 != "" && Covered(exceptions, view.key(f), view.severity(f), today, rules)
        {
          VerdictIsStrict(exceptions, findings, f, today, rules, view);
        }
      }
    }
  }

  lemma VerdictIsStrict(exceptions: seq<Record>, findings: seq<Finding>, f: Finding, today: int, rules: Rules, view: View)
    requires Verdict(exceptions, findings, today, rules, view) && f in findings && view.considered(f)
    requires NamesSeverity(exceptions, view.key(f), rules) ==>
      FirstSeverity(findings, view.key(f), view) == Some(view.severity(f))
    ensures view.key(f).1 != "" && Covered(exceptions, view.key(f), view.severity(f), today, rules)
  {
    var key, first := view.key(f), FirstSeverity(findings, view.key(f), view).Or("");
    assert Excusable(exceptions, findings, f, today, rules, view);
    var i :| CoveredBy(exceptions, i, key, first, today, rules);
    if rules.excuse(exceptions[i]).severity != "" {
      assert NamesSeverity(exceptions, key, rules);
    } else {
      assert CoveredBy(exceptions, i, key, view.severity(f), today, rules);
    }
  }

  lemma StrictIsVerdict(exceptions: seq<Record>, findings: seq<Finding>, today: int, rules: Rules, view: View)
    requires StrictVerdict(exceptions, findings, today, rules, view)
    ensures Verdict(exceptions, findings, today, rules, view)
    ensures forall f :: f in findings && view.considered(f) && NamesSeverity(exceptions, view.key(f), rules) ==>
      FirstSeverity(findings, view.key(f), view) == Some(view.severity(f))
  {
    JudgedStandForAll(findings, view);
    forall f | f in findings && view.considered(f)
      ensures Excusable(exceptions, findings, f, today, rules, view)
      ensures NamesSeverity(exceptions, view.key(f), rules) ==>
        FirstSeverity(findings, view.key(f), view) == Some(view.severity(f))
    {
      var key := view.key(f);
      FirstIsSome(findings, key, view);
      var g :| g in findings && view.considered(g) && view.key(g) == key
               && FirstSeverity(findings, key, view) == Some(view.severity(g));
      ExcusedIs(exceptions, key, rules);
      CoveredIsExcused(exceptions, key, view.severity(f), today, rules);
      CoveredIsExcused(exceptions, key, view.severity(g), today, rules);
    }
  }

  /** Two findings with one key and two severities, and an exception that names one of
      them: the verdict depends on which comes first. */
  lemma OrderCanMatter(r: Record, f: Finding, g: Finding, today: int, rules: Rules, view: View)
    requires rules.problem(r) == None && rules.key(r).1 != "" && rules.excuse(r).expires >= today
    requires SameKey(f, g, view) && view.key(f) == rules.key(r)
    requires rules.excuse(r).severity == view.severity(f) != view.severity(g) && view.severity(f) != ""
    ensures Verdict([r], [f, g], today, rules, view) && !Verdict([r], [g, f], today, rules, view)
  {
    var key := rules.key(r);
    assert [f, g][..1] == [f] && [g, f][..1] == [g] && [f][..0] == [] && [g][..0] == [];
    assert FirstSeverity([f], key, view) == Some(view.severity(f));
    assert FirstSeverity([g], key, view) == Some(view.severity(g));
    assert FirstSeverity([f, g], key, view) == Some(view.severity(f));
    assert FirstSeverity([g, f], key, view) == Some(view.severity(g));
    assert CoveredBy([r], 0, key, view.severity(f), today, rules);
    assert g in [g, f];
    if i :| CoveredBy([r], i, key, view.severity(g), today, rules) {
      assert false;
    }
  }

  const EXAMPLE: Record :=
    map["package" := "p", "advisory" := "a", "severity" := "high", "mitigation" := "m", "expires_on" := "2999-01-01"]

  const HIGH := Finding(Str("p"), Str("high"), Str("a"))
  const CRITICAL := Finding(Str("p"), Str("critical"), Str("a"))

  lemma Letter(c: char)
    requires !IsPySpace(c)
    ensures Trim([c]) == [c]
  {
    StripStripped([c], IsPySpace);
  }

  lemma ExampleValues()
    ensures Value(EXAMPLE, "package") == "p" && Value(EXAMPLE, "advisory") == "a"
    ensures Value(EXAMPLE, "severity") == "high" && Value(EXAMPLE, "mitigation") == "m"
    ensures Value(EXAMPLE, "expires_on") == "2999-01-01"
  {
  }

  lemma ExampleIsSound(py: Python)
    requires Faithful(py) && py.lower("a") == "a" && py.date("2999-01-01").Some?
    ensures RecordProblem(EXAMPLE, py) == None && ExceptionKey(EXAMPLE, py) == ("p", "a")
    ensures ExceptionSeverity(EXAMPLE, py) == "high"
  {
    ExampleValues();
    Letter('p');
    Letter('a');
    StripStripped("high", IsPySpace);
    assert LEVELS[3] == "high";
    assert py.lower("high") == "high";
    assert FieldsPresent(EXAMPLE);
  }

  lemma ExampleFindings(py: Python)
    requires Faithful(py) && py.lower("a") == "a"
    ensures WellFormed(HIGH) && WellFormed(CRITICAL)
    ensures KeyOf(HIGH, py) == KeyOf(CRITICAL, py) == ("p", "a")
  {
    Letter('p');
    Letter('a');
    assert LEVELS[3] == "high" && LEVELS[4] == "critical";
  }

  /** Only the first severity of a key is judged: a package listed as high and as
      critical under one advisory passes with an exception for high if the high finding
      comes first, and fails if the critical one does. */
  lemma OnlyFirstSeverityIsJudged(today: int, py: Python)
    requires Faithful(py) && py.lower("a") == "a"
    requires py.date("2999-01-01").Some? && py.date("2999-01-01").value >= today
    ensures Verdict([EXAMPLE], [HIGH, CRITICAL], today, RulesOf(py), ViewOf(py))
    ensures !Verdict([EXAMPLE], [CRITICAL, HIGH], today, RulesOf(py), ViewOf(py))
  {
    ExampleValues();
    ExampleIsSound(py);
    ExampleFindings(py);
    RawAndNormalizedAgree(HIGH, py);
    RawAndNormalizedAgree(CRITICAL, py);
    ExampleApplies(today, RulesOf(py), ViewOf(py));
  }

  lemma ExampleApplies(today: int, rules: Rules, view: View)
    requires rules.problem(EXAMPLE) == None && rules.key(EXAMPLE) == ("p", "a")
    requires rules.excuse(EXAMPLE).severity == "high" && rules.excuse(EXAMPLE).expires >= today
    requires view.considered(HIGH) && view.key(HIGH) == ("p", "a") && view.severity(HIGH) == "high"
    requires view.considered(CRITICAL) && view.key(CRITICAL) == ("p", "a") && view.severity(CRITICAL) == "critical"
    ensures Verdict([EXAMPLE], [HIGH, CRITICAL], today, rules, view)
    ensures !Verdict([EXAMPLE], [CRITICAL, HIGH], today, rules, view)
  {
    assert |"high"| != |"critical"|;
    OrderCanMatter(EXAMPLE, HIGH, CRITICAL, today, rules, view);
  }

  // ---- what a clean exit says -----------------------------------------------------------

  /** A finding's key is named and excused by an exception that is still valid. */
  ghost predicate IsExcused(records: seq<Record>, findings: seq<Finding>, f: Finding, today: int, py: Python) {
    && KeyOf(f, py).1 != ""
    && Covered(records, KeyOf(f, py), FirstSeverity(findings, KeyOf(f, py), ViewOf(py)).Or(""), today, RulesOf(py))
  }

  /** From the report to the exit code: after a clean exit every high or critical record,
      an advisory or each source of a vulnerability, has an exception in the file. */
  lemma CleanExitExcusesEveryRecord(report: Json, exitCode: Option<int>, lines: seq<string>, today: int, py: Python)
    returns (records: seq<Record>)
    requires Faithful(py) && Passes(report, exitCode, lines, today, py)
    ensures Grouped(Tokens(lines), records) && ListSound(records, RulesOf(py))
    ensures var findings := Findings(report.fields, py);
      var advisories, vulnerabilities := Section(report.fields, "advisories"), Section(report.fields, "vulnerabilities");
      && (forall k :: 0 <= k < |advisories| && IsHigh(Get(advisories[k].1.fields, "severity")) ==>
            IsExcused(records, findings, AdvisoryFinding(advisories[k].1, py), today, py))
      && (forall k, j :: 0 <= k < |vulnerabilities| && 0 <= j < |Via(vulnerabilities[k].1.fields)| ==>
            IsHigh(SourceFinding(vulnerabilities[k], j).severity) ==>
              IsExcused(records, findings, SourceFinding(vulnerabilities[k], j), today, py))
  {
    var data, findings := report.fields, Findings(report.fields, py);
    records :| Grouped(Tokens(lines), records) && Verdict(records, findings, today, RulesOf(py), ViewOf(py));
    EveryRecordYields(data, py);
    forall f | f in findings && IsHigh(f.severity)
      ensures IsExcused(records, findings, f, today, py)
    {
      HighIsExcused(data, records, f, today, py);
    }
  }

  lemma HighIsExcused(data: seq<(string, Json)>, records: seq<Record>, f: Finding, today: int, py: Python)
    requires Faithful(py) && RecordsOk(data, py) && Iterable(data, py)
    ensures (Verdict(records, Findings(data, py), today, RulesOf(py), ViewOf(py))
             && f in Findings(data, py) && IsHigh(f.severity)) ==>
      IsExcused(records, Findings(data, py), f, today, py)
  {
    FindingsWellFormed(data, py);
    if Verdict(records, Findings(data, py), today, RulesOf(py), ViewOf(py)) && f in Findings(data, py) {
      RawAndNormalizedAgree(f, py);
      assert Excusable(records, Findings(data, py), f, today, RulesOf(py), ViewOf(py));
    }
  }
}
