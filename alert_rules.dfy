/** Data model and reference semantics of the alert-rule engine.

    An indicator table maps a column name ("RSI", "EMA20", "MACD_12_26_9", ...)
    to its series of values, oldest first. A rule set maps a symbol to the
    ordered list of its rules. Evaluating a symbol walks its rules in order;
    every rule that fires contributes its pre-written message. A column that
    is missing or too short where the engine reads it without a guard aborts
    the whole evaluation with an error, as the lookup would raise.
 */
module AlertRules {

  // Rule type tags, as stored in the rule records.
  const RSI_TYPE := "RSI"
  const MACD_CROSS_TYPE := "MACD_CROSS"
  const EMA_CROSS_TYPE := "EMA_CROSS"

  // Column names the engine reads or tests for.
  const RSI_COLUMN := "RSI"
  const MACD_COLUMN := "MACD_12_26_9"
  const SIGNAL_COLUMN := "MACDs_12_26_9"
  const EMA20_COLUMN := "EMA20"
  const EMA50_COLUMN := "EMA50"

  // Cross directions.
  const BULLISH := "bullish"
  const BEARISH := "bearish"

  type Table = map<string, seq<real>>

  /** A rule, one variant per type tag the engine dispatches on. */
  datatype Rule =
    | Rsi(condition: string, value: real, message: string)
    | MacdCross(direction: string, message: string)
    | EmaCross(fast: string, slow: string, direction: string, message: string)
    | Unknown(kind: string)
  {
    /** The `type` tag of the record this rule stands for. */
    function Type(): string
    {
      match this
      case Rsi(_, _, _) => RSI_TYPE
      case MacdCross(_, _) => MACD_CROSS_TYPE
      case EmaCross(_, _, _, _) => EMA_CROSS_TYPE
      case Unknown(kind) => kind
    }

    /** An Unknown rule carries a tag the engine does not dispatch on. */
    predicate Valid()
    {
      Unknown? ==> kind !in {RSI_TYPE, MACD_CROSS_TYPE, EMA_CROSS_TYPE}
    }
  }

  type RuleSet = map<string, seq<Rule>>

  /** Every rule of every symbol stands for a record of its own type tag. */
  predicate ValidRuleSet(rules: RuleSet)
  {
    forall symbol :: symbol in rules ==> forall r <- rules[symbol] :: r.Valid()
  }

  /** Why an evaluation aborted: a column lookup or a row lookup that fails. */
  datatype EvalError =
    | MissingColumn(column: string)
    | TooFewRows(column: string)

  datatype Result<T> = Ok(value: T) | Err(error: EvalError)

  /** The column an EMA cross names through its `fast` or `slow` field. */
  function EmaColumn(period: string): string
  {
    "EMA" + period
  }

  function Last(s: seq<real>): real
    requires |s| > 0
  {
    s[|s| - 1]
  }

  /** The threshold test: strict, and only for the two known operators. */
  predicate ThresholdHolds(condition: string, current: real, threshold: real)
  {
    (condition == ">" && current > threshold) || (condition == "<" && current < threshold)
  }

  /** Series `a` passes from strictly below `b` to strictly above it
      between the last two rows of each. */
  predicate CrossesAbove(a: seq<real>, b: seq<real>)
    requires |a| >= 2 && |b| >= 2
  {
    a[|a| - 2] < b[|b| - 2] && a[|a| - 1] > b[|b| - 1]
  }

  /** Whether an RSI rule fires; reading the last RSI value may fail. */
  function ThresholdFired(df: Table, condition: string, threshold: real): Result<bool>
  {
    if RSI_COLUMN !in df then Err(MissingColumn(RSI_COLUMN))
    else if |df[RSI_COLUMN]| == 0 then Err(TooFewRows(RSI_COLUMN))
    else Ok(ThresholdHolds(condition, Last(df[RSI_COLUMN]), threshold))
  }

  /** Whether a cross rule fires. The rows are read only for a known
      direction, and the fast series is read before the slow one. A bearish
      cross is a bullish cross with the two series exchanged. */
  function CrossFired(direction: string, fastName: string, fast: seq<real>,
                      slowName: string, slow: seq<real>): Result<bool>
  {
    if direction != BULLISH && direction != BEARISH then Ok(false)
    else if |fast| < 2 then Err(TooFewRows(fastName))
    else if |slow| < 2 then Err(TooFewRows(slowName))
    else if direction == BULLISH then Ok(CrossesAbove(fast, slow))
    else Ok(CrossesAbove(slow, fast))
  }

  /** The messages a rule adds once its firing test is known. */
  function Emit(fired: Result<bool>, message: string): Result<seq<string>>
  {
    match fired
    case Err(e) => Err(e)
    case Ok(b) => Ok(if b then [message] else [])
  }

  /** What one rule adds to the result: at most its own message. */
  function Contribution(df: Table, rule: Rule): (r: Result<seq<string>>)
    ensures r.Ok? ==> r.value == [] || (!rule.Unknown? && r.value == [rule.message])
    ensures rule.Unknown? ==> r == Ok([])
  {
    match rule
    case Rsi(condition, value, message) =>
      Emit(ThresholdFired(df, condition, value), message)
    case MacdCross(direction, message) =>
      if MACD_COLUMN in df && SIGNAL_COLUMN in df then
        Emit(CrossFired(direction, MACD_COLUMN, df[MACD_COLUMN], SIGNAL_COLUMN, df[SIGNAL_COLUMN]), message)
      else
        Ok([])
    case EmaCross(fast, slow, direction, message) =>
      if EMA20_COLUMN !in df || EMA50_COLUMN !in df then Ok([])
      else if EmaColumn(fast) !in df then Err(MissingColumn(EmaColumn(fast)))
      else if EmaColumn(slow) !in df then Err(MissingColumn(EmaColumn(slow)))
      else
        Emit(CrossFired(direction, EmaColumn(fast), df[EmaColumn(fast)], EmaColumn(slow), df[EmaColumn(slow)]), message)
    case Unknown(_) => Ok([])
  }

  /** Sequencing of two partial results: the first error wins. */
  function Then(a: Result<seq<string>>, b: Result<seq<string>>): Result<seq<string>>
  {
    match a
    case Err(e) => Err(e)
    case Ok(x) =>
      match b
      case Err(e) => Err(e)
      case Ok(y) => Ok(x + y)
  }

  /** The messages of a rule list, in order; the first failing rule aborts. */
  function Run(df: Table, rules: seq<Rule>): (r: Result<seq<string>>)
    ensures r.Ok? ==> |r.value| <= |rules|
    decreases |rules|
  {
    if rules == [] then Ok([])
    else Then(Contribution(df, rules[0]), Run(df, rules[1..]))
  }

  /** The alerts for `symbol`: none when it has no rules. */
  function Evaluate(symbol: string, df: Table, rules: RuleSet): (r: Result<seq<string>>)
    requires ValidRuleSet(rules)
    ensures symbol !in rules ==> r == Ok([])
    ensures r.Ok? && symbol in rules ==> |r.value| <= |rules[symbol]|
  {
    if symbol !in rules then Ok([]) else Run(df, rules[symbol])
  }
}
