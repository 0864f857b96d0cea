# Trading bot configuration validator

This project models the configuration of the trading bot in
`trading-bot/src/config.py`: the `Config` class that reads six broker
credentials (`TRADOVATE_API_KEY`, `TRADOVATE_CLIENT_ID`,
`TRADOVATE_CLIENT_SECRET`, `TRADOVATE_USERNAME`, `TRADOVATE_PASSWORD`,
`TRADOVATE_ACCOUNT_ID`), the traded symbol and the profit-target and
stop-loss rates from the environment, and its `validate` class method, which
decides whether the bot may start.

`validate` is a first-failure procedure. It walks the required credentials in
the fixed order API_KEY, CLIENT_ID, CLIENT_SECRET, USERNAME, PASSWORD,
ACCOUNT_ID and raises on the first one that is unset or empty. It then rejects
a profit target or stop loss that is not positive. Last, it rejects a profit
target that is not strictly greater than the stop loss.

Files:

- `wrappers.dfy` (module `Wrappers`): `Option` for values `os.getenv` may not
  find, and `Outcome` for "passes or raises one error".
- `configuration.dfy` (module `Configuration`): the credential `Field`s and
  their examination order, the `Config` value, the class-level constants and
  defaults, and `Load`, which builds a `Config` from an environment map.
- `validation.dfy` (module `Validation`): the error type and its messages,
  `Validate` (functional) and `ValidateStepwise` (the loop as written), the
  closed-form predicate `Acceptable`, a reference list `Problems` of every
  failing check, and the lemmas relating them.

`Problems` lists every failing check, and `ValidateReportsFirstProblem`
proves that `Validate` raises its head, which is the first-failure behaviour
of `validate`.

## Model

| member | source | states |
|---|---|---|
| Configuration.Rank | trading-bot/src/config.py:37 | every credential field has a position in the examination order, and the order lists that field at that position |
| Configuration.RankOfPosition | trading-bot/src/config.py:37 | the examination order lists each field once, so a field's position is unique |
| Configuration.FieldNameInjective | trading-bot/src/config.py:37 | two fields have the same attribute name exactly when they are the same field |
| Configuration.EnvVarInjective | trading-bot/src/config.py:10-15 | each credential is read from its own environment variable; no two share one |
| Configuration.Load | trading-bot/src/config.py:10-20 | each credential holds its variable's value, or nothing when unset, so it counts as present exactly when the variable is set and non-empty; a set symbol or rate takes the variable's (parsed) value and an unset one the default "ES", 0.02 or 0.01; loading fails exactly when a set rate does not parse |
| Validation.FirstMissing | trading-bot/src/config.py:39-41 | the loop stops at the first absent field: every field before the returned index is present and the field at it is absent |
| Validation.Validate | trading-bot/src/config.py:35-47 | validation passes exactly when all six credentials are present, both rates are positive and the target exceeds the stop; a missing-field error names an absent field with all earlier ones present; any other error means all credentials are present |
| Validation.ValidateStepwise | trading-bot/src/config.py:35-47 | the loop-and-return procedure gives the same outcome as `Validate` on every configuration and passes exactly on acceptable ones |
| Validation.MessageInjective | trading-bot/src/config.py:41-47 | two errors carry the same message text exactly when they are the same error, so the message identifies the failing check and the field |
| Validation.ReportsFirstMissingField | trading-bot/src/config.py:37-41 | the error names field `f` if and only if `f` is absent and every field before it in the order is present |
| Validation.MissingFieldTakesPrecedence | trading-bot/src/config.py:39-44 | whatever the rates, an absent credential makes validation fail with a missing-field error naming that field or an earlier one |
| Validation.FirstMissingStopsAtAbsent | trading-bot/src/config.py:39-41 | the loop's result depends only on the presence of the fields up to and including the first absent one |
| Validation.LaterFieldsNotExamined | trading-bot/src/config.py:39-47 | once a field is absent, later credentials, the symbol and the rates do not affect the outcome |
| Validation.NonPositiveRatesReported | trading-bot/src/config.py:43-44 | with all credentials present, the positivity error is raised exactly when either rate is zero or negative, before the ordering check |
| Validation.TargetNotAboveStopReported | trading-bot/src/config.py:46-47 | with all credentials present and both rates positive, the ordering error is raised exactly when the target is at most the stop, equality included |
| Validation.DefaultRatesPassNumericChecks | trading-bot/src/config.py:43-47 | under the default rates 0.02 and 0.01 of lines 19-20, validation passes exactly when all credentials are present and can only fail with a missing-field error |
| Validation.LoadedDefaultsValidate | trading-bot/src/config.py:10-20 | with neither rate variable set, the configuration loads, and it validates exactly when every credential variable is set and non-empty |
| Validation.MissingErrorsHead | trading-bot/src/config.py:37-41 | the list of all missing-field errors is empty exactly when the loop finds nothing, and otherwise starts with the field the loop stops at |
| Validation.ValidateReportsFirstProblem | trading-bot/src/config.py:35-47 | validation passes exactly when no check fails, and otherwise raises the first failing check of the full list in the source's order |

## Left out

- `validate` leaves every configuration field unchanged. This holds by construction here: `Validate` is a pure function of an immutable `Config` value, so there is nothing further to state.
- Floating point. Rates are `real`, so only the ordering comparisons are modelled. Under IEEE 754 a NaN rate would pass every comparison in `validate`; that case has no counterpart here.
- Configuration.Load: `float(...)` parsing of the rate variables is a parameter (`parseFloat`, with `None` standing for `float` raising `ValueError`), because text-to-float conversion is outside the model. `load_dotenv` (reading a `.env` file into the environment) is I/O and is replaced by the environment map given to `Load`.
- The class-level constants `BAR_SIZE`, `LOOKBACK_PERIODS`, `MIN_PRICE_MOVEMENT`, `MAX_SPREAD`, `MAX_POSITION_SIZE` and `MAX_DAILY_TRADES` are declared with their values, but `validate` does not examine them and nothing in this model uses them.
- `trading-bot/src/main.py`: the polling loop, sleeping, logging, market-status checks, data fetching, authentication and the strategy calls are I/O or calls into files that are not part of this model. `load_config` only turns the outcome of `validate` into a boolean.
- `trading-bot/src/__init__.py` holds only a docstring and version metadata.
- The signal and risk engine (smoothing filter, candle classifier, signal fusion, position and risk limits) lives in `strategy.py`, `supersmoother.py` and `candle_detector.py`, which are not part of this model.
