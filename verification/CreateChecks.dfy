/** defaults and check of backend/ent/apikey_create.go, run over the options of a
    mutation. Default values and validators come from the schema package and are
    parameters. */
module CreateChecks {
  import opened RowMapping
  import opened Schema
  import opened Wrappers

  datatype DbError = ConstraintViolation(code: int) | OtherDbError(code: int)

  datatype CreateError =
    | BuilderError(code: int)
    | Uninitialized(c: Column)
    | Missing(c: Column)
    | Invalid(c: Column, code: int)
    | MissingUserEdge
    | Rejected(code: int)
    | Database(code: int)
    | Constraint(code: int)

  /** The error a caller of save sees for a driver error. */
  function Wrapped(e: DbError): CreateError {
    match e
    case ConstraintViolation(code) => Constraint(code)
    case OtherDbError(code) => Database(code)
  }

  /** Default values (None for an uninitialised default function) and validators. */
  datatype Env = Env(default: Column -> Option<Value>, invalid: (Column, Value) -> Option<int>)

  // ---- defaults ---------------------------------------------------------------

  /** The columns defaults fills, in its order. */
  const DEFAULTED: seq<Column> := DEFAULTED_1 + DEFAULTED_2

  const DEFAULTED_1 := [CreatedAt, UpdatedAt, TeamOwnerDisabled, IsComposite, Status, FastModePolicy, BillingMode,
                        ModelMapping]
  const DEFAULTED_2 := [Quota, QuotaUsed, ConcurrencyLimit, RpmLimit, RateLimit5h, RateLimit1d, RateLimit7d, Usage5h,
                        Usage1d, Usage7d, FallbackWhenGroupUnavailable]

  /** Fills the columns in order; an uninitialised default stops it, keeping what
      was filled before. */
  function Fill(columns: seq<Column>, o: Options, env: Env): (Options, Option<CreateError>) {
    if columns == [] then (o, None)
    else if columns[0] in o.fields then Fill(columns[1..], o, env)
    else match env.default(columns[0])
      case None => (o, Some(Uninitialized(columns[0])))
      case Some(v) => Fill(columns[1..], o.(fields := o.fields[columns[0] := v]), env)
  }

  function Defaults(o: Options, env: Env): (Options, Option<CreateError>) {
    Fill(DEFAULTED, o, env)
  }

  /** Filling keeps every option that was set, changes nothing but the listed
      columns, takes each new value from the defaults, and completes the list unless
      it reports the column it stopped at, which stays unset. */
  lemma {:induction false} FillSpec(columns: seq<Column>, o: Options, env: Env)
    ensures var (o', err) := Fill(columns, o, env);
      && o'.(fields := o.fields) == o
      && (forall c :: c in o.fields ==> c in o'.fields && o'.fields[c] == o.fields[c])
      && (forall c :: c in o'.fields && c !in o.fields ==> c in columns && env.default(c) == Some(o'.fields[c]))
      && (err == None <==> forall c :: c in columns ==> c in o'.fields)
      && (err.Some? ==> err.value.Uninitialized? && err.value.c in columns && err.value.c !in o'.fields)
  {
    if columns != [] {
      assert columns == [columns[0]] + columns[1..];
      if columns[0] in o.fields {
        FillSpec(columns[1..], o, env);
      } else if env.default(columns[0]).Some? {
        FillSpec(columns[1..], o.(fields := o.fields[columns[0] := env.default(columns[0]).value]), env);
      }
    }
  }

  /** Running defaults again changes nothing and reports the same error. */
  lemma {:induction false} FillIdempotent(columns: seq<Column>, o: Options, env: Env)
    ensures Fill(columns, Fill(columns, o, env).0, env) == Fill(columns, o, env)
  {
    if columns != [] {
      if columns[0] in o.fields {
        FillIdempotent(columns[1..], o, env);
        FillSpec(columns[1..], o, env);
      } else if env.default(columns[0]).Some? {
        var next := o.(fields := o.fields[columns[0] := env.default(columns[0]).value]);
        FillIdempotent(columns[1..], next, env);
        FillSpec(columns[1..], next, env);
      }
    }
  }

  // ---- check --------------------------------------------------------------------

  datatype Rule = Required(c: Column) | Validated(c: Column) | RequiredUser | RequiredUserEdge

  /** check's tests in order. */
  const RULES: seq<Rule> := RULES_1 + RULES_2 + RULES_3 + RULES_4

  const RULES_1 := [Required(CreatedAt), Required(UpdatedAt), RequiredUser, Required(TeamOwnerDisabled), Required(Key),
                    Validated(Key), Required(Name), Validated(Name), Required(IsComposite)]
  const RULES_2 := [Required(Status), Validated(Status), Required(FastModePolicy), Validated(FastModePolicy),
                    Required(BillingMode), Validated(BillingMode), Required(ModelMapping)]
  const RULES_3 := [Required(Quota), Required(QuotaUsed), Required(ConcurrencyLimit), Validated(ConcurrencyLimit),
                    Required(RpmLimit), Validated(RpmLimit), Required(RateLimit5h), Required(RateLimit1d)]
  const RULES_4 := [Required(RateLimit7d), Required(Usage5h), Required(Usage1d), Required(Usage7d),
                    Required(FallbackWhenGroupUnavailable), Validated(ManagedBy), RequiredUserEdge]

  function RuleError(rule: Rule, o: Options, env: Env): Option<CreateError> {
    match rule
    case Required(c) => if c in o.fields then None else Some(Missing(c))
    case Validated(c) =>
      if c in o.fields && env.invalid(c, o.fields[c]).Some? then Some(Invalid(c, env.invalid(c, o.fields[c]).value))
      else None
    case RequiredUser => if o.user.Some? then None else Some(Missing(UserID))
    case RequiredUserEdge => if o.user.Some? then None else Some(MissingUserEdge)
  }

  /** The first rule that fails. */
  function FirstError(rules: seq<Rule>, o: Options, env: Env): Option<CreateError> {
    if rules == [] then None
    else if RuleError(rules[0], o, env).Some? then RuleError(rules[0], o, env)
    else FirstError(rules[1..], o, env)
  }

  function Check(o: Options, env: Env): Option<CreateError> {
    FirstError(RULES, o, env)
  }

  lemma {:induction false} FirstErrorSpec(rules: seq<Rule>, o: Options, env: Env)
    ensures FirstError(rules, o, env) == None <==> forall r :: r in rules ==> RuleError(r, o, env) == None
    ensures FirstError(rules, o, env).Some? ==>
      exists r :: r in rules && RuleError(r, o, env) == FirstError(rules, o, env)
  {
    if rules != [] {
      assert rules == [rules[0]] + rules[1..];
      FirstErrorSpec(rules[1..], o, env);
      assert rules[0] in rules;
    }
  }

  lemma {:induction false} EarlierError(a: seq<Rule>, b: seq<Rule>, o: Options, env: Env)
    ensures FirstError(a + b, o, env) ==
      if FirstError(a, o, env).Some? then FirstError(a, o, env) else FirstError(b, o, env)
  {
    if a == [] {
      assert a + b == b;
    } else {
      assert (a + b)[1..] == a[1..] + b;
      EarlierError(a[1..], b, o, env);
    }
  }

  /** Only the edge rule reports a missing edge. */
  lemma EdgeErrorFrom(rules: seq<Rule>, o: Options, env: Env)
    requires RequiredUserEdge !in rules
    ensures FirstError(rules, o, env) != Some(MissingUserEdge)
  {
    FirstErrorSpec(rules, o, env);
  }

  lemma UserRuleComesFirst()
    ensures RequiredUser in RULES_1 && RequiredUserEdge !in RULES_1
    ensures RULES == RULES_1 + (RULES_2 + RULES_3 + RULES_4)
  {
    assert RULES_1[2] == RequiredUser;
  }

  /** The last test of check can never be the one that fails: the edge getter reads
      the same pointer as the user_id getter, which an earlier rule tests. */
  lemma MissingEdgeUnreachable(o: Options, env: Env)
    ensures Check(o, env) != Some(MissingUserEdge)
  {
    UserRuleComesFirst();
    EarlierError(RULES_1, RULES_2 + RULES_3 + RULES_4, o, env);
    EdgeErrorFrom(RULES_1, o, env);
    if o.user == None {
      FirstErrorSpec(RULES_1, o, env);
      assert RuleError(RequiredUser, o, env).Some?;
    } else {
      FirstErrorSpec(RULES, o, env);
    }
  }

  /** Every column that defaults fills is one that check requires. */
  lemma DefaultedAreRequired(c: Column)
    requires c in DEFAULTED
    ensures Required(c) in RULES
  {
    DefaultedAre(c);
    RequiredAre(c);
  }

  /** Bulk save drops the error of defaults, but check reports the options such a
      failure leaves behind: it never passes them. */
  lemma DroppedDefaultErrorIsCaught(o: Options, env: Env)
    ensures Defaults(o, env).1.Some? ==> Check(Defaults(o, env).0, env).Some?
  {
    FillSpec(DEFAULTED, o, env);
    FirstErrorSpec(RULES, Defaults(o, env).0, env);
    if Defaults(o, env).1.Some? {
      var c := Defaults(o, env).1.value.c;
      DefaultedAreRequired(c);
      assert RuleError(Required(c), Defaults(o, env).0, env) == Some(Missing(c));
    }
  }

  /** Once defaults has succeeded, check can only complain about the user, the key,
      the name, or a validator. */
  lemma AfterDefaults(o: Options, env: Env)
    requires Defaults(o, env).1 == None
    ensures var e := Check(Defaults(o, env).0, env);
      e.Some? && e.value.Missing? ==> e.value.c == UserID || e.value.c == Key || e.value.c == Name
  {
    var o' := Defaults(o, env).0;
    FillSpec(DEFAULTED, o, env);
    FirstErrorSpec(RULES, o', env);
    var e := Check(o', env);
    if e.Some? && e.value.Missing? {
      var r :| r in RULES && RuleError(r, o', env) == e;
      if r.Required? {
        RequiredIsDefaulted(r.c);
      }
    }
  }

  lemma RequiredIsDefaulted(c: Column)
    requires Required(c) in RULES
    ensures c in DEFAULTED || c == Key || c == Name
  {
    RequiredAre(c);
    DefaultedAre(c);
  }

  /** Defaults fails only where a default is not initialised. */
  lemma {:induction false} FillSucceeds(columns: seq<Column>, o: Options, env: Env)
    requires forall c :: c in columns ==> env.default(c).Some?
    ensures Fill(columns, o, env).1 == None
  {
    if columns != [] {
      if columns[0] in o.fields {
        FillSucceeds(columns[1..], o, env);
      } else {
        FillSucceeds(columns[1..], o.(fields := o.fields[columns[0] := env.default(columns[0]).value]), env);
      }
    }
  }

  /** With every default initialised, options that set the user, the key and the name
      have every required field once defaults has run, and keep what they set. */
  lemma DefaultsComplete(o: Options, env: Env)
    requires (forall c :: env.default(c).Some?) && Key in o.fields && Name in o.fields
    ensures var o' := Defaults(o, env).0;
      && o'.user == o.user
      && (forall c :: Required(c) in RULES ==> c in o'.fields)
      && (forall c :: c in o.fields ==> c in o'.fields && o'.fields[c] == o.fields[c])
  {
    FillSpec(DEFAULTED, o, env);
    FillSucceeds(DEFAULTED, o, env);
    forall c | Required(c) in RULES
      ensures c in Defaults(o, env).0.fields
    {
      RequiredIsDefaulted(c);
    }
  }

  // ---- the columns, by name ------------------------------------------------------------------

  /** The columns that have a default and that a saved API key must have. */
  predicate IsDefaulted(c: Column) {
    || c.CreatedAt? || c.UpdatedAt? || c.TeamOwnerDisabled? || c.IsComposite? || c.Status? || c.FastModePolicy?
    || c.BillingMode? || c.ModelMapping? || c.Quota? || c.QuotaUsed? || c.ConcurrencyLimit? || c.RpmLimit?
    || c.RateLimit5h? || c.RateLimit1d? || c.RateLimit7d? || c.Usage5h? || c.Usage1d? || c.Usage7d?
    || c.FallbackWhenGroupUnavailable?
  }

  /** The columns that have a validator. */
  predicate IsValidated(c: Column) {
    || c.Key? || c.Name? || c.Status? || c.FastModePolicy? || c.BillingMode? || c.ConcurrencyLimit? || c.RpmLimit?
    || c.ManagedBy?
  }

  lemma DefaultedAre(c: Column)
    ensures c in DEFAULTED <==> IsDefaulted(c)
  {
    DefaultedPart1(c);
    DefaultedPart2(c);
    assert c in DEFAULTED <==> c in DEFAULTED_1 || c in DEFAULTED_2;
  }

  lemma DefaultedPart1(c: Column)
    ensures c in DEFAULTED_1 <==> (c.CreatedAt? || c.UpdatedAt? || c.TeamOwnerDisabled? || c.IsComposite? || c.Status?
      || c.FastModePolicy? || c.BillingMode? || c.ModelMapping?)
  {
  }

  lemma DefaultedPart2(c: Column)
    ensures c in DEFAULTED_2 <==> (c.Quota? || c.QuotaUsed? || c.ConcurrencyLimit? || c.RpmLimit? || c.RateLimit5h?
      || c.RateLimit1d? || c.RateLimit7d? || c.Usage5h? || c.Usage1d? || c.Usage7d? || c.FallbackWhenGroupUnavailable?)
  {
  }

  lemma RequiredPart1(c: Column)
    ensures Required(c) in RULES_1 <==> (c.CreatedAt? || c.UpdatedAt? || c.TeamOwnerDisabled? || c.Key? || c.Name?
      || c.IsComposite?)
  {
  }

  lemma RequiredPart2(c: Column)
    ensures Required(c) in RULES_2 <==> (c.Status? || c.FastModePolicy? || c.BillingMode? || c.ModelMapping?)
  {
  }

  lemma RequiredPart3(c: Column)
    ensures Required(c) in RULES_3 <==> (c.Quota? || c.QuotaUsed? || c.ConcurrencyLimit? || c.RpmLimit?
      || c.RateLimit5h? || c.RateLimit1d?)
  {
  }

  lemma RequiredPart4(c: Column)
    ensures Required(c) in RULES_4 <==> (c.RateLimit7d? || c.Usage5h? || c.Usage1d? || c.Usage7d?
      || c.FallbackWhenGroupUnavailable?)
  {
  }

  lemma InRules(r: Rule)
    ensures r in RULES <==> r in RULES_1 || r in RULES_2 || r in RULES_3 || r in RULES_4
  {
  }

  lemma RequiredAre(c: Column)
    ensures Required(c) in RULES <==> IsDefaulted(c) || c.Key? || c.Name?
  {
    InRules(Required(c));
    RequiredPart1(c);
    RequiredPart2(c);
    RequiredPart3(c);
    RequiredPart4(c);
  }

  lemma ValidatedPart1(c: Column)
    ensures Validated(c) in RULES_1 <==> c.Key? || c.Name?
  {
  }

  lemma ValidatedPart2(c: Column)
    ensures Validated(c) in RULES_2 <==> c.Status? || c.FastModePolicy? || c.BillingMode?
  {
  }

  lemma ValidatedPart3(c: Column)
    ensures Validated(c) in RULES_3 <==> c.ConcurrencyLimit? || c.RpmLimit?
  {
  }

  lemma ValidatedPart4(c: Column)
    ensures Validated(c) in RULES_4 <==> c.ManagedBy?
  {
  }

  lemma ValidatedAre(c: Column)
    ensures Validated(c) in RULES <==> IsValidated(c)
  {
    InRules(Validated(c));
    ValidatedPart1(c);
    ValidatedPart2(c);
    ValidatedPart3(c);
    ValidatedPart4(c);
  }

  /** The user, the key, the name and every defaulted column are set, and the validators
      pass what is set. */
  ghost predicate Acceptable(o: Options, env: Env) {
    && o.user.Some? && Key in o.fields && Name in o.fields
    && (forall c :: IsDefaulted(c) ==> c in o.fields)
    && (forall c :: IsValidated(c) && c in o.fields ==> env.invalid(c, o.fields[c]) == None)
  }

  /** check passes exactly the acceptable options. */
  lemma CheckMeans(o: Options, env: Env)
    ensures Check(o, env) == None <==> Acceptable(o, env)
  {
    FirstErrorSpec(RULES, o, env);
    UserRuleComesFirst();
    if Check(o, env) == None {
      assert RequiredUser in RULES && RuleError(RequiredUser, o, env) == None;
      forall c
        ensures IsDefaulted(c) || c == Key || c == Name ==> c in o.fields
        ensures IsValidated(c) && c in o.fields ==> env.invalid(c, o.fields[c]) == None
      {
        RequiredAre(c);
        ValidatedAre(c);
        assert Required(c) in RULES ==> RuleError(Required(c), o, env) == None;
        assert Validated(c) in RULES ==> RuleError(Validated(c), o, env) == None;
      }
    }
    if Acceptable(o, env) {
      forall r | r in RULES
        ensures RuleError(r, o, env) == None
      {
        if r.Required? {
          RequiredAre(r.c);
        } else if r.Validated? {
          ValidatedAre(r.c);
        }
      }
    }
  }

  /** With every default initialised, options that set the user, the key and the name,
      and that the validators pass once completed, are accepted after defaults. */
  lemma CompletedPasses(o: Options, env: Env)
    requires (forall c :: env.default(c).Some?) && o.user.Some? && Key in o.fields && Name in o.fields
    requires forall c :: c in o.fields ==> env.invalid(c, o.fields[c]) == None
    requires forall c :: env.invalid(c, env.default(c).value) == None
    ensures Check(Defaults(o, env).0, env) == None && Defaults(o, env).1 == None
  {
    var o' := Defaults(o, env).0;
    FillSpec(DEFAULTED, o, env);
    FillSucceeds(DEFAULTED, o, env);
    forall c | IsDefaulted(c)
      ensures c in o'.fields
    {
      DefaultedAre(c);
    }
    CheckMeans(o', env);
  }
}
