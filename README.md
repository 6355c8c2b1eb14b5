# Alert-rule engine

A model in Dafny of `apply_alert_rules`, the engine that decides which
user-defined alerts fire for a ticker symbol. It takes three inputs:

- a symbol;
- an indicator table, meaning named columns such as `RSI`, `EMA20`,
  `EMA50`, `MACD_12_26_9` and `MACDs_12_26_9`, each a series of values,
  oldest first;
- a rule set that maps each symbol to an ordered list of rules.

It walks the symbol's rules in order. Each rule that fires appends its
pre-written message to the result.

The project has three files:

- `alert_rules.dfy`, module `AlertRules`. It holds the data model and the
  reference semantics, as functions:
  - `Rule` has one variant per `type` tag: `Rsi` for `"RSI"`, `MacdCross`
    for `"MACD_CROSS"`, `EmaCross` for `"EMA_CROSS"`, and `Unknown` for any
    other tag. `Rule.Type()` gives the tag back. `Rule.Valid()` says that an
    `Unknown` rule's tag is none of the three. `Evaluate` and
    `ApplyAlertRules` require every rule in the rule set to be valid, because
    a record tagged `"RSI"` always takes the RSI branch.
  - `Table` is `map<string, seq<real>>`.
  - `ThresholdFired` models the RSI read and comparison of
    `alert_editor.py` lines 10-14. `CrossFired` models the cross test that
    lines 20-23 (MACD) and 29-32 (EMA) share.
  - `Contribution` is what one rule adds.
  - `Run` concatenates the contributions in order.
  - `Evaluate` does the symbol lookup.
- `alert_editor.dfy`, module `AlertEditor`. It holds the engine as the
  program runs it: `ApplyAlertRules` builds `messages` in a loop. Its loop
  invariant says the list equals `Run` over the rules processed so far.
  `TestCross` is the line-cross test that the MACD and EMA branches share.
- `alert_properties.dfy`, module `AlertProperties`. It holds the lemmas:
  per-rule independence, order, the subsequence property, the firing
  conditions of each rule kind, the column guards, and the fact that only
  the last rows are read.

Some lookups in the program raise an exception. The model returns that
outcome as `Err(MissingColumn(c))` for a missing column (a `KeyError`) or
`Err(TooFewRows(c))` for a series too short to index (an `IndexError`). The
first such error aborts the whole evaluation, as the exception would. Four
lookups can fail this way:

- The RSI branch reads the last `RSI` value without a guard.
- The cross branches read the second-to-last row without a length check.
  They do so only when the direction is `"bullish"` or `"bearish"`, because
  Python's `and` short-circuits. The fast series is read before the slow
  one.
- The EMA branch's guard checks only `EMA20` and `EMA50`. After it passes,
  the branch looks up the columns `"EMA" + fast` and `"EMA" + slow` without
  a check.

A general design for such an engine treats missing columns and short
histories as "the rule does not fire". The code raises instead, and this
model follows the code. The code also names the rule kinds `RSI`,
`MACD_CROSS` and `EMA_CROSS`, not generic threshold and line-cross rules.
Its threshold rule always reads the `RSI` column.

The engine has no hidden state, so calling it twice on the same inputs
gives the same result. In Dafny this is immediate, because `Evaluate` is a
function.

## Model

| member | source | states |
|---|---|---|
| `AlertEditor.ApplyAlertRules` | alert_editor.py:1-33 | the list the loop builds, or the error it stops with, is exactly `Evaluate` of the inputs; the loop invariant keeps `messages` equal to `Run` over the rules processed so far |
| `AlertEditor.TestCross` | alert_editor.py:20-23 | the imperative cross test, written with the source's `<`/`>` comparisons for each direction, agrees with `CrossFired`, which defines a bearish cross as a bullish cross with the series swapped |
| `AlertRules.Evaluate` | alert_editor.py:2-6 | a symbol with no rules gives the empty result; otherwise no more messages than the symbol has rules |
| `AlertRules.Run` | alert_editor.py:6-33 | a successful run yields at most one message per rule |
| `AlertRules.Contribution` | alert_editor.py:7-32 | a rule adds either nothing or exactly its own message; a rule of unknown type adds nothing |
| `AlertProperties.RunAppend` | alert_editor.py:6-33 | evaluating `a + b` is evaluating `a`, then `b`, with the first error winning: no rule's outcome depends on its neighbours |
| `AlertProperties.RunPrefixStep` | alert_editor.py:6-32 | one more loop iteration appends the next rule's contribution to the messages so far |
| `AlertProperties.RunStopsAt` | alert_editor.py:6-33 | the first rule that fails aborts the whole evaluation with that rule's error |
| `AlertProperties.RunConcatenates` | alert_editor.py:12-14 | messages of rules that fire keep declaration order and are not de-duplicated |
| `AlertProperties.RunTwice` | alert_editor.py:6-33 | listing the same rules twice reports every fired message twice |
| `AlertProperties.SilentRuleDropped` | alert_editor.py:6-33 | removing a rule that adds nothing leaves the result of the others unchanged |
| `AlertProperties.RunIsSubsequence` | alert_editor.py:6-33 | the result is an order-preserving subsequence of the rules' messages, so no longer than that list |
| `AlertProperties.UnknownTypeIgnored` | alert_editor.py:7-25 | a rule whose `type` is none of `RSI`, `MACD_CROSS`, `EMA_CROSS` can be removed without changing the result |
| `AlertProperties.ThresholdRule` | alert_editor.py:9-14 | an RSI rule fails without an RSI column or value, and otherwise fires iff (`>` and last RSI > value) or (`<` and last RSI < value); equality or another operator never fires |
| `AlertProperties.CrossRule` | alert_editor.py:20-23 | an unknown direction never fires and reads nothing; a known one fails on a series shorter than two rows, fast first; bullish fires iff fast[n-2] < slow[n-2] and fast[n-1] > slow[n-1], bearish is the mirror, and a tie on either row never fires |
| `AlertProperties.CrossDirectionsExclusive` | alert_editor.py:20-23 | a bullish and a bearish test on the same pair never both fire |
| `AlertProperties.MacdColumnsAbsent` | alert_editor.py:16-17 | a MACD cross rule is removable, whatever its direction, when either MACD column is absent |
| `AlertProperties.MacdCrossRule` | alert_editor.py:16-23 | with both MACD columns of two or more rows, the rule fires iff the MACD line strictly crosses its signal line in the stated direction |
| `AlertProperties.EmaGuardAbsent` | alert_editor.py:25-26 | an EMA cross rule is removable when `EMA20` or `EMA50` is absent, whatever its `fast`/`slow` fields name |
| `AlertProperties.EmaNamedColumnMissing` | alert_editor.py:26-28 | once the guard passes, a missing `"EMA"+fast` (checked first) or `"EMA"+slow` column aborts with that column's error |
| `AlertProperties.EmaCrossMirror` | alert_editor.py:29-32 | a bullish EMA rule on (fast, slow) behaves exactly like a bearish one on (slow, fast) |
| `AlertProperties.EmaCrossRule` | alert_editor.py:25-32 | with EMA20, EMA50 and both named EMA columns present with two or more rows, the rule fires iff the fast EMA strictly crosses the slow one in the stated direction |
| `AlertProperties.CrossReadsLastRows` | alert_editor.py:20-22 | the cross test depends only on the series' last two values and their lengths |
| `AlertProperties.ThresholdReadsLastRow` | alert_editor.py:10 | an RSI rule depends only on the last row of the table |
| `AlertProperties.ContributionReadsLastRows` | alert_editor.py:9-32 | any rule depends only on the last two rows of the table |
| `AlertProperties.RunReadsLastRows` | alert_editor.py:6-33 | a rule list depends only on the last two rows of the table |
| `AlertProperties.EvaluateReadsLastRows` | alert_editor.py:1-33 | rewriting rows before the last two leaves the alerts unchanged |
| `AlertProperties.Examples` | alert_editor.py:9-23 | worked cases: 75 > 70 fires, 65 and 70 do not; MACD [10,20] over signal [15,15] crosses up, [20,10] and [15,15] do not; a one-row MACD table fails |

## Left out

- The user interface, data download, indicator arithmetic, charting, rule-file loading and chat notification in `tv_streamlit_pro.py`. They are I/O or calls into libraries that are not part of this model, and the engine only receives their results.
- The caller's symbol normalisation (upper-casing, splitting on commas, trimming). The engine receives the symbol as given.
- Malformed rule records: a missing `type`, `condition`, `value`, `direction`, `fast`, `slow` or `message` key, or a field of the wrong type. These would raise, and are configuration errors outside the engine's logic. Each rule variant carries exactly the fields its branch reads.
- `fast` and `slow` are modelled as the text that the f-string produces (`20` becomes `"20"`). Python's formatting of non-string values is not modelled.
- Floating-point values, NaN and pandas dtypes. Indicator values are `real`, and the engine only compares them with `<` and `>`. A NaN, which compares false both ways, is not modelled.
- Pandas' exception types and messages. A failing lookup becomes `MissingColumn` or `TooFewRows` naming the column, and the exception's propagation becomes the whole result being that error.
- A table's columns are not required to share one length. Each series is read from its own end, which agrees with a data frame whenever the lengths are equal.
