/** Properties of the alert-rule engine's reference semantics. */
module AlertProperties {
  import opened AlertRules

  // ---------------------------------------------------------------------
  // Sequencing: the result is the in-order concatenation of contributions

  lemma ThenAssociative(x: Result<seq<string>>, y: Result<seq<string>>, z: Result<seq<string>>)
    ensures Then(Then(x, y), z) == Then(x, Then(y, z))
  {
    if x.Ok? && y.Ok? && z.Ok? {
      assert (x.value + y.value) + z.value == x.value + (y.value + z.value);
    }
  }

  /** Evaluating two rule lists one after the other is evaluating their
      concatenation: no rule's outcome depends on the rules around it. */
  lemma {:induction false} RunAppend(df: Table, a: seq<Rule>, b: seq<Rule>)
    ensures Run(df, a + b) == Then(Run(df, a), Run(df, b))
  {
    if a == [] {
      assert a + b == b;
      var rb := Run(df, b);
      if rb.Ok? {
        assert [] + rb.value == rb.value;
      }
    } else {
      assert (a + b)[0] == a[0];
      assert (a + b)[1..] == a[1..] + b;
      RunAppend(df, a[1..], b);
      ThenAssociative(Contribution(df, a[0]), Run(df, a[1..]), Run(df, b));
    }
  }

  /** The accumulation step of the engine's loop: one more rule appends its
      contribution to the prefix processed so far. */
  lemma RunPrefixStep(df: Table, rules: seq<Rule>, i: nat)
    requires i < |rules|
    ensures Run(df, rules[..i + 1]) == Then(Run(df, rules[..i]), Contribution(df, rules[i]))
  {
    assert rules[..i + 1] == rules[..i] + [rules[i]];
    RunAppend(df, rules[..i], [rules[i]]);
    var c := Contribution(df, rules[i]);
    assert [rules[i]][1..] == [];
    if c.Ok? {
      assert c.value + [] == c.value;
    }
  }

  /** A failing rule aborts the whole evaluation with its own error, once
      every rule before it has been evaluated without error. */
  lemma RunStopsAt(df: Table, rules: seq<Rule>, i: nat)
    requires i < |rules|
    requires Run(df, rules[..i]).Ok?
    requires Contribution(df, rules[i]).Err?
    ensures Run(df, rules) == Contribution(df, rules[i])
  {
    RunPrefixStep(df, rules, i);
    assert rules == rules[..i + 1] + rules[i + 1..];
    RunAppend(df, rules[..i + 1], rules[i + 1..]);
  }

  /** Two rule lists that both evaluate keep their messages in declaration
      order, and equal messages are not merged. */
  lemma RunConcatenates(df: Table, a: seq<Rule>, b: seq<Rule>, x: seq<string>, y: seq<string>)
    requires Run(df, a) == Ok(x) && Run(df, b) == Ok(y)
    ensures Run(df, a + b) == Ok(x + y)
  {
    RunAppend(df, a, b);
  }

  /** Listing the same rules twice reports every fired message twice. */
  lemma RunTwice(df: Table, rules: seq<Rule>)
    requires Run(df, rules).Ok?
    ensures Run(df, rules + rules) == Ok(Run(df, rules).value + Run(df, rules).value)
  {
    RunAppend(df, rules, rules);
  }

  /** A rule that contributes nothing can be removed without changing the
      outcome of the rules around it. */
  lemma SilentRuleDropped(df: Table, a: seq<Rule>, r: Rule, b: seq<Rule>)
    requires Contribution(df, r) == Ok([])
    ensures Run(df, a + [r] + b) == Run(df, a + b)
  {
    RunAppend(df, a + [r], b);
    RunAppend(df, a, [r]);
    RunAppend(df, a, b);
    assert [r][1..] == [];
    var ra := Run(df, a);
    if ra.Ok? {
      assert ra.value + [] == ra.value;
    }
  }

  // ---------------------------------------------------------------------
  // The result is an ordered selection of the rules' own messages

  /** The messages of the rules that carry one, in declaration order. */
  function Candidates(rules: seq<Rule>): (ms: seq<string>)
    ensures |ms| <= |rules|
  {
    if rules == [] then []
    else (if rules[0].Unknown? then [] else [rules[0].message]) + Candidates(rules[1..])
  }

  /** `xs` is obtained from `ys` by deleting elements. */
  predicate IsSubsequence(xs: seq<string>, ys: seq<string>)
    decreases |ys|
  {
    xs == [] ||
    (ys != [] &&
     ((xs[0] == ys[0] && IsSubsequence(xs[1..], ys[1..])) || IsSubsequence(xs, ys[1..])))
  }

  /** Each rule adds at most its own message, so the result is an
      order-preserving subsequence of the rules' messages. */
  lemma {:induction false} RunIsSubsequence(df: Table, rules: seq<Rule>)
    requires Run(df, rules).Ok?
    ensures IsSubsequence(Run(df, rules).value, Candidates(rules))
    ensures |Run(df, rules).value| <= |Candidates(rules)|
  {
    if rules != [] {
      var c := Contribution(df, rules[0]);
      var rest := Run(df, rules[1..]);
      RunIsSubsequence(df, rules[1..]);
      var ms := Run(df, rules).value;
      var cs := Candidates(rules);
      if rules[0].Unknown? {
        assert ms == rest.value;
        assert cs == Candidates(rules[1..]);
      } else if c.value == [] {
        assert ms == rest.value;
        assert cs[1..] == Candidates(rules[1..]);
        if ms != [] {
          assert IsSubsequence(ms, cs[1..]);
        }
      } else {
        assert ms == [rules[0].message] + rest.value;
        assert cs == [rules[0].message] + Candidates(rules[1..]);
        assert ms[0] == cs[0] && ms[1..] == rest.value && cs[1..] == Candidates(rules[1..]);
      }
    }
  }

  // ---------------------------------------------------------------------
  // Rule kinds

  /** A rule whose type tag is none of the three known ones adds nothing and
      leaves the other rules' outcome alone. */
  lemma UnknownTypeIgnored(df: Table, a: seq<Rule>, r: Rule, b: seq<Rule>)
    requires r.Type() !in {RSI_TYPE, MACD_CROSS_TYPE, EMA_CROSS_TYPE}
    ensures Run(df, a + [r] + b) == Run(df, a + b)
  {
    SilentRuleDropped(df, a, r, b);
  }

  /** An RSI rule reads the last RSI value, fails if there is none, and
      fires exactly on a strict comparison with a known operator. */
  lemma ThresholdRule(df: Table, condition: string, value: real, message: string)
    ensures RSI_COLUMN !in df ==>
              Contribution(df, Rsi(condition, value, message)) == Err(MissingColumn(RSI_COLUMN))
    ensures RSI_COLUMN in df && |df[RSI_COLUMN]| == 0 ==>
              Contribution(df, Rsi(condition, value, message)) == Err(TooFewRows(RSI_COLUMN))
    ensures RSI_COLUMN in df && |df[RSI_COLUMN]| > 0 ==>
              var current := df[RSI_COLUMN][|df[RSI_COLUMN]| - 1];
              && Contribution(df, Rsi(condition, value, message)).Ok?
              && (Contribution(df, Rsi(condition, value, message)) == Ok([message]) <==>
                    (condition == ">" && current > value) || (condition == "<" && current < value))
              && (current == value || condition !in {">", "<"} ==>
                    Contribution(df, Rsi(condition, value, message)) == Ok([]))
  {
  }

  /** A cross between the last two rows; a tie on either row is no cross. */
  lemma CrossRule(direction: string, fastName: string, fast: seq<real>, slowName: string, slow: seq<real>)
    ensures direction != BULLISH && direction != BEARISH ==>
              CrossFired(direction, fastName, fast, slowName, slow) == Ok(false)
    ensures (direction == BULLISH || direction == BEARISH) && |fast| < 2 ==>
              CrossFired(direction, fastName, fast, slowName, slow) == Err(TooFewRows(fastName))
    ensures (direction == BULLISH || direction == BEARISH) && |fast| >= 2 && |slow| < 2 ==>
              CrossFired(direction, fastName, fast, slowName, slow) == Err(TooFewRows(slowName))
    ensures |fast| >= 2 && |slow| >= 2 && direction == BULLISH ==>
              (CrossFired(direction, fastName, fast, slowName, slow) == Ok(true) <==>
                 fast[|fast| - 2] < slow[|slow| - 2] && fast[|fast| - 1] > slow[|slow| - 1])
    ensures |fast| >= 2 && |slow| >= 2 && direction == BEARISH ==>
              (CrossFired(direction, fastName, fast, slowName, slow) == Ok(true) <==>
                 fast[|fast| - 2] > slow[|slow| - 2] && fast[|fast| - 1] < slow[|slow| - 1])
    ensures |fast| >= 2 && |slow| >= 2 &&
            (fast[|fast| - 2] == slow[|slow| - 2] || fast[|fast| - 1] == slow[|slow| - 1]) ==>
              CrossFired(direction, fastName, fast, slowName, slow) == Ok(false)
  {
  }

  /** A bullish and a bearish rule on the same pair never both fire. */
  lemma CrossDirectionsExclusive(fastName: string, fast: seq<real>, slowName: string, slow: seq<real>)
    ensures !(CrossFired(BULLISH, fastName, fast, slowName, slow) == Ok(true) &&
              CrossFired(BEARISH, fastName, fast, slowName, slow) == Ok(true))
  {
  }

  /** A MACD cross rule adds nothing when either MACD column is missing. */
  lemma MacdColumnsAbsent(df: Table, a: seq<Rule>, direction: string, message: string, b: seq<Rule>)
    requires MACD_COLUMN !in df || SIGNAL_COLUMN !in df
    ensures Run(df, a + [MacdCross(direction, message)] + b) == Run(df, a + b)
  {
    SilentRuleDropped(df, a, MacdCross(direction, message), b);
  }

  /** With both MACD columns present, a MACD cross rule is the cross test of
      the MACD line against its signal line. */
  lemma MacdCrossRule(df: Table, direction: string, message: string)
    requires MACD_COLUMN in df && SIGNAL_COLUMN in df
    requires |df[MACD_COLUMN]| >= 2 && |df[SIGNAL_COLUMN]| >= 2
    ensures
      var macd, signal := df[MACD_COLUMN], df[SIGNAL_COLUMN];
      && Contribution(df, MacdCross(direction, message)).Ok?
      && (Contribution(df, MacdCross(direction, message)) == Ok([message]) <==>
            (direction == BULLISH && macd[|macd| - 2] < signal[|signal| - 2] && macd[|macd| - 1] > signal[|signal| - 1]) ||
            (direction == BEARISH && macd[|macd| - 2] > signal[|signal| - 2] && macd[|macd| - 1] < signal[|signal| - 1]))
  {
    CrossRule(direction, MACD_COLUMN, df[MACD_COLUMN], SIGNAL_COLUMN, df[SIGNAL_COLUMN]);
  }

  /** An EMA cross rule adds nothing when EMA20 or EMA50 is missing,
      whichever columns its own fields name. */
  lemma EmaGuardAbsent(df: Table, a: seq<Rule>, fast: string, slow: string, direction: string,
                       message: string, b: seq<Rule>)
    requires EMA20_COLUMN !in df || EMA50_COLUMN !in df
    ensures Run(df, a + [EmaCross(fast, slow, direction, message)] + b) == Run(df, a + b)
  {
    SilentRuleDropped(df, a, EmaCross(fast, slow, direction, message), b);
  }

  /** Once EMA20 and EMA50 are present, the columns the rule names are looked
      up unguarded: a missing one aborts, whatever the direction. */
  lemma EmaNamedColumnMissing(df: Table, fast: string, slow: string, direction: string, message: string)
    requires EMA20_COLUMN in df && EMA50_COLUMN in df
    ensures EmaColumn(fast) !in df ==>
              Contribution(df, EmaCross(fast, slow, direction, message)) == Err(MissingColumn(EmaColumn(fast)))
    ensures EmaColumn(fast) in df && EmaColumn(slow) !in df ==>
              Contribution(df, EmaCross(fast, slow, direction, message)) == Err(MissingColumn(EmaColumn(slow)))
  {
  }

  /** Exchanging `fast` and `slow` turns a bullish EMA rule into a bearish one. */
  lemma EmaCrossMirror(df: Table, fast: string, slow: string, message: string)
    requires EmaColumn(fast) in df && EmaColumn(slow) in df
    requires |df[EmaColumn(fast)]| >= 2 && |df[EmaColumn(slow)]| >= 2
    ensures Contribution(df, EmaCross(fast, slow, BULLISH, message)) ==
            Contribution(df, EmaCross(slow, fast, BEARISH, message))
  {
  }

  /** With EMA20, EMA50 and both named columns present, each of two or more
      rows, an EMA cross rule is the cross test of its fast EMA against its
      slow one. */
  lemma EmaCrossRule(df: Table, fast: string, slow: string, direction: string, message: string)
    requires EMA20_COLUMN in df && EMA50_COLUMN in df
    requires EmaColumn(fast) in df && EmaColumn(slow) in df
    requires |df[EmaColumn(fast)]| >= 2 && |df[EmaColumn(slow)]| >= 2
    ensures
      var f, s := df[EmaColumn(fast)], df[EmaColumn(slow)];
      && Contribution(df, EmaCross(fast, slow, direction, message)).Ok?
      && (Contribution(df, EmaCross(fast, slow, direction, message)) == Ok([message]) <==>
            (direction == BULLISH && f[|f| - 2] < s[|s| - 2] && f[|f| - 1] > s[|s| - 1]) ||
            (direction == BEARISH && f[|f| - 2] > s[|s| - 2] && f[|f| - 1] < s[|s| - 1]))
  {
  }

  // ---------------------------------------------------------------------
  // Only the last rows are read

  /** Two series of equal length that agree on their last `k` entries. */
  predicate LastRowsAgree(s: seq<real>, t: seq<real>, k: nat)
  {
    |s| == |t| && forall j :: 0 <= j < |s| && |s| - k <= j ==> s[j] == t[j]
  }

  /** Two tables with the same columns, of the same lengths, that differ at
      most before their last `k` rows. */
  predicate TablesAgree(df: Table, df': Table, k: nat)
  {
    df.Keys == df'.Keys && forall c :: c in df ==> LastRowsAgree(df[c], df'[c], k)
  }

  /** The cross test reads nothing but the last two values of each series. */
  lemma CrossReadsLastRows(direction: string, fastName: string, fast: seq<real>, fast': seq<real>,
                           slowName: string, slow: seq<real>, slow': seq<real>)
    requires LastRowsAgree(fast, fast', 2) && LastRowsAgree(slow, slow', 2)
    ensures CrossFired(direction, fastName, fast, slowName, slow) ==
            CrossFired(direction, fastName, fast', slowName, slow')
  {
  }

  /** An RSI rule reads nothing but the last RSI value. */
  lemma ThresholdReadsLastRow(df: Table, df': Table, r: Rule)
    requires r.Rsi?
    requires TablesAgree(df, df', 1)
    ensures Contribution(df, r) == Contribution(df', r)
  {
  }

  /** A single rule reads nothing but the last two rows of the table. */
  lemma ContributionReadsLastRows(df: Table, df': Table, r: Rule)
    requires TablesAgree(df, df', 2)
    ensures Contribution(df, r) == Contribution(df', r)
  {
  }

  /** A rule list reads nothing but the last two rows of the table. */
  lemma {:induction false} RunReadsLastRows(df: Table, df': Table, rules: seq<Rule>)
    requires TablesAgree(df, df', 2)
    ensures Run(df, rules) == Run(df', rules)
  {
    if rules != [] {
      ContributionReadsLastRows(df, df', rules[0]);
      RunReadsLastRows(df, df', rules[1..]);
    }
  }

  /** Rewriting any row of the table before its last two leaves the alerts
      unchanged. */
  lemma EvaluateReadsLastRows(symbol: string, df: Table, df': Table, rules: RuleSet)
    requires ValidRuleSet(rules)
    requires TablesAgree(df, df', 2)
    ensures Evaluate(symbol, df, rules) == Evaluate(symbol, df', rules)
  {
    if symbol in rules {
      RunReadsLastRows(df, df', rules[symbol]);
    }
  }

  // ---------------------------------------------------------------------
  // Worked examples

  /** A threshold of 70 with operator ">", and a bullish MACD cross. */
  lemma Examples()
    ensures Contribution(map[RSI_COLUMN := [60.0, 75.0]], Rsi(">", 70.0, "overbought")) == Ok(["overbought"])
    ensures Contribution(map[RSI_COLUMN := [65.0]], Rsi(">", 70.0, "overbought")) == Ok([])
    ensures Contribution(map[RSI_COLUMN := [70.0]], Rsi(">", 70.0, "overbought")) == Ok([])
    ensures Contribution(map[MACD_COLUMN := [10.0, 20.0], SIGNAL_COLUMN := [15.0, 15.0]],
                         MacdCross(BULLISH, "up")) == Ok(["up"])
    ensures Contribution(map[MACD_COLUMN := [20.0, 10.0], SIGNAL_COLUMN := [15.0, 15.0]],
                         MacdCross(BULLISH, "up")) == Ok([])
    ensures Contribution(map[MACD_COLUMN := [15.0, 15.0], SIGNAL_COLUMN := [15.0, 15.0]],
                         MacdCross(BULLISH, "up")) == Ok([])
    ensures Contribution(map[MACD_COLUMN := [20.0], SIGNAL_COLUMN := [15.0]],
                         MacdCross(BULLISH, "up")) == Err(TooFewRows(MACD_COLUMN))
  {
  }
}
