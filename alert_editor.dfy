/** The alert-rule engine as the program runs it: a loop over the symbol's
    rules that appends each fired message to a growing list. */
module AlertEditor {
  import opened AlertRules
  import AlertProperties

  /** The cross test shared by the MACD and EMA branches: reads the last two
      rows of each series only once the direction is known. */
  method TestCross(direction: string, fastName: string, fast: seq<real>,
                   slowName: string, slow: seq<real>) returns (fired: Result<bool>)
    ensures fired == CrossFired(direction, fastName, fast, slowName, slow)
  {
    if direction == BULLISH {
      if |fast| < 2 { return Err(TooFewRows(fastName)); }
      if |slow| < 2 { return Err(TooFewRows(slowName)); }
      fired := Ok(fast[|fast| - 2] < slow[|slow| - 2] && fast[|fast| - 1] > slow[|slow| - 1]);
    } else if direction == BEARISH {
      if |fast| < 2 { return Err(TooFewRows(fastName)); }
      if |slow| < 2 { return Err(TooFewRows(slowName)); }
      fired := Ok(fast[|fast| - 2] > slow[|slow| - 2] && fast[|fast| - 1] < slow[|slow| - 1]);
    } else {
      fired := Ok(false);
    }
  }

  /** Evaluates the rules of `symbol` against the indicator table. */
  method ApplyAlertRules(symbol: string, df: Table, rules: RuleSet) returns (result: Result<seq<string>>)
    requires ValidRuleSet(rules)
    ensures result == Evaluate(symbol, df, rules)
  {
    var messages: seq<string> := [];
    if symbol !in rules {
      return Ok(messages);
    }
    var rs := rules[symbol];
    for i := 0 to |rs|
      invariant Run(df, rs[..i]) == Ok(messages)
    {
      AlertProperties.RunPrefixStep(df, rs, i);
      assert messages + [] == messages;
      match rs[i]
      case Rsi(condition, value, message) =>
        if RSI_COLUMN !in df {
          AlertProperties.RunStopsAt(df, rs, i);
          return Err(MissingColumn(RSI_COLUMN));
        }
        var rsi := df[RSI_COLUMN];
        if |rsi| == 0 {
          AlertProperties.RunStopsAt(df, rs, i);
          return Err(TooFewRows(RSI_COLUMN));
        }
        var current := rsi[|rsi| - 1];
        if condition == ">" && current > value {
          messages := messages + [message];
        } else if condition == "<" && current < value {
          messages := messages + [message];
        }
      case MacdCross(direction, message) =>
        if MACD_COLUMN in df && SIGNAL_COLUMN in df {
          var fired := TestCross(direction, MACD_COLUMN, df[MACD_COLUMN], SIGNAL_COLUMN, df[SIGNAL_COLUMN]);
          if fired.Err? {
            AlertProperties.RunStopsAt(df, rs, i);
            return Err(fired.error);
          }
          if fired.value {
            messages := messages + [message];
          }
        }
      case EmaCross(fast, slow, direction, message) =>
        if EMA20_COLUMN in df && EMA50_COLUMN in df {
          if EmaColumn(fast) !in df {
            AlertProperties.RunStopsAt(df, rs, i);
            return Err(MissingColumn(EmaColumn(fast)));
          }
          if EmaColumn(slow) !in df {
            AlertProperties.RunStopsAt(df, rs, i);
            return Err(MissingColumn(EmaColumn(slow)));
          }
          var emaFast := df[EmaColumn(fast)];
          var emaSlow := df[EmaColumn(slow)];
          var fired := TestCross(direction, EmaColumn(fast), emaFast, EmaColumn(slow), emaSlow);
          if fired.Err? {
            AlertProperties.RunStopsAt(df, rs, i);
            return Err(fired.error);
          }
          if fired.value {
            messages := messages + [message];
          }
        }
      case Unknown(_) =>
    }
    assert rs[..|rs|] == rs;
    return Ok(messages);
  }
}
