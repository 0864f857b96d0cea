/**
 The trading bot's configuration: six broker credentials read from the
 environment, the traded symbol, the two risk rates, and the fixed
 class-level constants of `trading-bot/src/config.py`.
 */
module Configuration {
  import opened Wrappers

  /** The credential attributes that validation insists on. */
  datatype Field = ApiKey | ClientId | ClientSecret | Username | Password | AccountId

  /** The order in which validation examines the credentials. */
  const RequiredFields: seq<Field> := [ApiKey, ClientId, ClientSecret, Username, Password, AccountId]

  // Class-level constants that are not read from the environment.
  const BarSize: string := "1m"
  const LookbackPeriods: nat := 200
  const MinPriceMovement: real := 0.25
  const MaxSpread: real := 0.5
  const MaxPositionSize: nat := 1
  const MaxDailyTrades: nat := 5

  // Defaults used when the corresponding environment variable is unset.
  const DefaultSymbol: string := "ES"
  const DefaultProfitTarget: real := 0.02
  const DefaultStopLoss: real := 0.01

  /** Names of the environment variables holding the symbol and the rates. */
  const SymbolVar: string := "SYMBOL"
  const ProfitTargetVar: string := "PROFIT_TARGET"
  const StopLossVar: string := "STOP_LOSS"

  /** A configuration as the `Config` class holds it once the module is loaded. */
  datatype Config = Config(
    apiKey: Option<string>,
    clientId: Option<string>,
    clientSecret: Option<string>,
    username: Option<string>,
    password: Option<string>,
    accountId: Option<string>,
    symbol: string,
    profitTarget: real,
    stopLoss: real)

  /** The environment as a finite map from variable name to value. */
  type Environment = map<string, string>

  /** Position of a field in the examination order. */
  function Rank(f: Field): (i: nat)
    ensures i < |RequiredFields| && RequiredFields[i] == f
  {
    match f
    case ApiKey => 0
    case ClientId => 1
    case ClientSecret => 2
    case Username => 3
    case Password => 4
    case AccountId => 5
  }

  /** The examination order lists every field exactly once. */
  lemma RankOfPosition(i: nat)
    requires i < |RequiredFields|
    ensures Rank(RequiredFields[i]) == i
  {
  }

  /** The attribute name of a field, as it appears in error messages. */
  function FieldName(f: Field): string
  {
    match f
    case ApiKey => "API_KEY"
    case ClientId => "CLIENT_ID"
    case ClientSecret => "CLIENT_SECRET"
    case Username => "USERNAME"
    case Password => "PASSWORD"
    case AccountId => "ACCOUNT_ID"
  }

  /** Each credential is read from the variable `TRADOVATE_<attribute name>`. */
  function EnvVar(f: Field): string
  {
    "TRADOVATE_" + FieldName(f)
  }

  /** Distinct fields have distinct attribute names. */
  lemma FieldNameInjective(f: Field, g: Field)
    ensures FieldName(f) == FieldName(g) <==> f == g
  {
  }

  /** Distinct fields are read from distinct environment variables. */
  lemma EnvVarInjective(f: Field, g: Field)
    ensures EnvVar(f) == EnvVar(g) <==> f == g
  {
    FieldNameInjective(f, g);
    if EnvVar(f) == EnvVar(g) {
      assert FieldName(f) == EnvVar(f)[10..];
      assert FieldName(g) == EnvVar(g)[10..];
    }
  }

  /** The stored value of a credential field. */
  function Get(c: Config, f: Field): Option<string>
  {
    match f
    case ApiKey => c.apiKey
    case ClientId => c.clientId
    case ClientSecret => c.clientSecret
    case Username => c.username
    case Password => c.password
    case AccountId => c.accountId
  }

  /** Python truthiness of an optional string: set and not empty. */
  predicate Truthy(v: Option<string>)
  {
    v.Some? && v.value != ""
  }

  /** A credential is present when its attribute is truthy. */
  predicate Present(c: Config, f: Field)
  {
    Truthy(Get(c, f))
  }

  /** `os.getenv(name)` without a default. */
  function Lookup(env: Environment, name: string): Option<string>
  {
    if name in env then Some(env[name]) else None
  }

  /** `float(os.getenv(name, default))`: the default when unset, otherwise the parsed text. */
  function LoadRate(env: Environment, name: string, default: real, parseFloat: string -> Option<real>): Option<real>
  {
    if name in env then parseFloat(env[name]) else Some(default)
  }

  /**
   Builds the configuration from the environment. Parsing a rate is a
   parameter: `None` from `parseFloat` stands for `float(...)` raising, in
   which case no configuration exists.
   */
  function Load(env: Environment, parseFloat: string -> Option<real>): (r: Option<Config>)
    ensures r.None? <==>
              || (ProfitTargetVar in env && parseFloat(env[ProfitTargetVar]).None?)
              || (StopLossVar in env && parseFloat(env[StopLossVar]).None?)
    ensures r.Some? ==> forall f :: Present(r.value, f) <==> EnvVar(f) in env && env[EnvVar(f)] != ""
    ensures r.Some? && ProfitTargetVar !in env ==> r.value.profitTarget == DefaultProfitTarget
    ensures r.Some? && StopLossVar !in env ==> r.value.stopLoss == DefaultStopLoss
    ensures r.Some? && SymbolVar !in env ==> r.value.symbol == DefaultSymbol
    ensures r.Some? && ProfitTargetVar in env ==> r.value.profitTarget == parseFloat(env[ProfitTargetVar]).value
    ensures r.Some? && StopLossVar in env ==> r.value.stopLoss == parseFloat(env[StopLossVar]).value
    ensures r.Some? && SymbolVar in env ==> r.value.symbol == env[SymbolVar]
    ensures r.Some? ==> forall f :: Get(r.value, f) == Lookup(env, EnvVar(f))
  {
    var target := LoadRate(env, ProfitTargetVar, DefaultProfitTarget, parseFloat);
    var stop := LoadRate(env, StopLossVar, DefaultStopLoss, parseFloat);
    if target.None? || stop.None? then None
    else
      var c := Config(
        Lookup(env, EnvVar(ApiKey)),
        Lookup(env, EnvVar(ClientId)),
        Lookup(env, EnvVar(ClientSecret)),
        Lookup(env, EnvVar(Username)),
        Lookup(env, EnvVar(Password)),
        Lookup(env, EnvVar(AccountId)),
        if SymbolVar in env then env[SymbolVar] else DefaultSymbol,
        target.value,
        stop.value);
      assert forall f :: Get(c, f) == Lookup(env, EnvVar(f));
      Some(c)
  }
}
