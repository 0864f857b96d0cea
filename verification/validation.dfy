/**
 `Config.validate`: examines the six credentials in a fixed order and fails
 on the first one that is falsy, then rejects non-positive rates, then
 rejects a profit target that does not exceed the stop loss. The first
 failing check decides the reported error; nothing after it is examined.
 */
module Validation {
  import opened Wrappers
  import opened Configuration

  /** The `ValueError`s that validation can raise. */
  datatype ConfigError =
    | MissingField(field: Field)
    | NonPositiveRates
    | TargetNotAboveStop

  /** The text carried by each error. */
  function Message(e: ConfigError): string
  {
    match e
    case MissingField(f) => "Missing required configuration: " + FieldName(f)
    case NonPositiveRates => "Profit target and stop loss must be positive"
    case TargetNotAboveStop => "Profit target must be greater than stop loss"
  }

  /** Every credential is present. */
  ghost predicate AllPresent(c: Config)
  {
    forall f :: Present(c, f)
  }

  /** Every credential examined before `f` is present. */
  ghost predicate PresentBefore(c: Config, f: Field)
  {
    forall i :: 0 <= i < Rank(f) ==> Present(c, RequiredFields[i])
  }

  /** Closed-form acceptance: what a configuration must satisfy to pass validation. */
  ghost predicate Acceptable(c: Config)
  {
    && AllPresent(c)
    && c.profitTarget > 0.0
    && c.stopLoss > 0.0
    && c.profitTarget > c.stopLoss
  }

  /**
   The loop over the required fields: the index of the first field of
   `fields` that is absent, or `|fields|` when all are present.
   */
  function FirstMissing(c: Config, fields: seq<Field>): (k: nat)
    ensures k <= |fields|
    ensures forall j :: 0 <= j < k ==> Present(c, fields[j])
    ensures k < |fields| ==> !Present(c, fields[k])
    decreases |fields|
  {
    if |fields| == 0 then 0
    else if !Present(c, fields[0]) then 0
    else 1 + FirstMissing(c, fields[1..])
  }

  /** Validation: the outcome of `Config.validate` on `c`. */
  function Validate(c: Config): (r: Outcome<ConfigError>)
    ensures r.Pass? <==> Acceptable(c)
    ensures r.Fail? && r.error.MissingField? ==> !Present(c, r.error.field) && PresentBefore(c, r.error.field)
    ensures r.Fail? && !r.error.MissingField? ==> AllPresent(c)
  {
    var k := FirstMissing(c, RequiredFields);
    if k < |RequiredFields| then
      RankOfPosition(k);
      Fail(MissingField(RequiredFields[k]))
    else
      assert forall f :: Present(c, f) by {
        forall f ensures Present(c, f) {
          assert RequiredFields[Rank(f)] == f;
        }
      }
      if c.profitTarget <= 0.0 || c.stopLoss <= 0.0 then Fail(NonPositiveRates)
      else if c.profitTarget <= c.stopLoss then Fail(TargetNotAboveStop)
      else Pass
  }

  /**
   The statement sequence of `validate`: a loop over the required fields that
   returns at the first falsy one, then the two rate checks. It agrees with
   `Validate` on every configuration.
   */
  method ValidateStepwise(c: Config) returns (r: Outcome<ConfigError>)
    ensures r == Validate(c)
    ensures r.Pass? <==> Acceptable(c)
  {
    var i := 0;
    while i < |RequiredFields|
      invariant 0 <= i <= |RequiredFields|
      invariant forall j :: 0 <= j < i ==> Present(c, RequiredFields[j])
    {
      if !Present(c, RequiredFields[i]) {
        return Fail(MissingField(RequiredFields[i]));
      }
      i := i + 1;
    }
    if c.profitTarget <= 0.0 || c.stopLoss <= 0.0 {
      return Fail(NonPositiveRates);
    }
    if c.profitTarget <= c.stopLoss {
      return Fail(TargetNotAboveStop);
    }
    return Pass;
  }

  /** Distinct errors carry distinct messages, so the text identifies the failing check. */
  lemma MessageInjective(e1: ConfigError, e2: ConfigError)
    ensures Message(e1) == Message(e2) <==> e1 == e2
  {
    if e1 != e2 {
      if e1.MissingField? && e2.MissingField? {
        FieldNameInjective(e1.field, e2.field);
        assert Message(e1)[32..] == FieldName(e1.field) != FieldName(e2.field) == Message(e2)[32..];
      } else if e1.MissingField? || e2.MissingField? {
        assert |Message(e1)| != |Message(e2)|;
      } else {
        assert Message(e1)[14] != Message(e2)[14];
      }
    }
  }

  /**
   The credential examined first among those absent is reported, and
   exactly that one: a missing-field error names `f` if and only if `f` is
   absent and every field examined before it is present.
   */
  lemma ReportsFirstMissingField(c: Config, f: Field)
    ensures Validate(c) == Fail(MissingField(f)) <==> !Present(c, f) && PresentBefore(c, f)
  {
  }

  /**
   An absent credential always wins: whatever the rates, validation fails
   with a missing-field error naming `f` or a field examined before it.
   */
  lemma MissingFieldTakesPrecedence(c: Config, f: Field)
    requires !Present(c, f)
    ensures Validate(c).Fail? && Validate(c).error.MissingField?
    ensures Rank(Validate(c).error.field) <= Rank(f)
  {
  }

  /** `FirstMissing` depends only on the presence of the fields up to the first absent one. */
  lemma FirstMissingStopsAtAbsent(c: Config, c': Config, fields: seq<Field>)
    requires FirstMissing(c, fields) < |fields|
    requires forall j :: 0 <= j <= FirstMissing(c, fields) ==> (Present(c, fields[j]) <==> Present(c', fields[j]))
    ensures FirstMissing(c', fields) == FirstMissing(c, fields)
  {
  }

  /**
   Once a credential is found absent the loop raises: later credentials,
   the symbol and the rates are never examined. Any configuration that
   agrees on the presence of the credentials up to and including the first
   absent one validates to the same outcome.
   */
  lemma LaterFieldsNotExamined(c: Config, c': Config, f: Field)
    requires !Present(c, f)
    requires forall i :: 0 <= i <= Rank(f) ==> (Present(c, RequiredFields[i]) <==> Present(c', RequiredFields[i]))
    ensures Validate(c') == Validate(c)
  {
  }

  /**
   With every credential present, the positivity check comes first: it
   fails exactly when either rate is zero or negative.
   */
  lemma NonPositiveRatesReported(c: Config)
    requires AllPresent(c)
    ensures Validate(c) == Fail(NonPositiveRates) <==> c.profitTarget <= 0.0 || c.stopLoss <= 0.0
  {
  }

  /**
   With every credential present and both rates positive, the ordering
   check fails exactly when the profit target does not exceed the stop
   loss, equal rates included.
   */
  lemma TargetNotAboveStopReported(c: Config)
    requires AllPresent(c)
    requires c.profitTarget > 0.0 && c.stopLoss > 0.0
    ensures Validate(c) == Fail(TargetNotAboveStop) <==> c.profitTarget <= c.stopLoss
  {
  }

  /**
   The default rates pass both numeric checks, so under them validation
   can only fail on a missing credential, and passes once all are present.
   */
  lemma DefaultRatesPassNumericChecks(c: Config)
    requires c.profitTarget == DefaultProfitTarget && c.stopLoss == DefaultStopLoss
    ensures Validate(c).Pass? <==> AllPresent(c)
    ensures Validate(c).Fail? ==> Validate(c).error.MissingField?
  {
  }

  /**
   End to end: with neither rate variable set, the configuration loads and
   validates exactly when every `TRADOVATE_*` credential variable is set to
   a non-empty value.
   */
  lemma LoadedDefaultsValidate(env: Environment, parseFloat: string -> Option<real>)
    requires ProfitTargetVar !in env && StopLossVar !in env
    ensures Load(env, parseFloat).Some?
    ensures Validate(Load(env, parseFloat).value).Pass? <==>
              forall f :: EnvVar(f) in env && env[EnvVar(f)] != ""
  {
  }

  /** The missing-field errors for `fields`, in examination order. */
  function MissingErrors(c: Config, fields: seq<Field>): seq<ConfigError>
  {
    if |fields| == 0 then []
    else if Present(c, fields[0]) then MissingErrors(c, fields[1..])
    else [MissingField(fields[0])] + MissingErrors(c, fields[1..])
  }

  /**
   Reference definition: every check that fails on `c`, in the order
   `validate` performs them, as if each were run regardless of the others.
   */
  function Problems(c: Config): seq<ConfigError>
  {
    MissingErrors(c, RequiredFields)
    + (if c.profitTarget <= 0.0 || c.stopLoss <= 0.0 then [NonPositiveRates] else [])
    + (if c.profitTarget <= c.stopLoss then [TargetNotAboveStop] else [])
  }

  /** The missing-field list is empty exactly when the loop finds nothing, and starts with what it finds. */
  lemma {:induction false} MissingErrorsHead(c: Config, fields: seq<Field>)
    ensures MissingErrors(c, fields) == [] <==> FirstMissing(c, fields) == |fields|
    ensures FirstMissing(c, fields) < |fields| ==>
              MissingErrors(c, fields)[0] == MissingField(fields[FirstMissing(c, fields)])
    decreases |fields|
  {
    if |fields| > 0 && Present(c, fields[0]) {
      MissingErrorsHead(c, fields[1..]);
      var k := FirstMissing(c, fields[1..]);
      if k < |fields[1..]| {
        assert fields[1..][k] == fields[k + 1];
      }
    }
  }

  /**
   First-failure reporting: validation passes exactly when there is no
   problem at all, and otherwise raises the first problem of the full list.
   */
  lemma ValidateReportsFirstProblem(c: Config)
    ensures Validate(c) == (if Problems(c) == [] then Pass else Fail(Problems(c)[0]))
  {
    MissingErrorsHead(c, RequiredFields);
  }
}
