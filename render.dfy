/** The projection performed by `displayResults`: from the parsed analysis
    record to the texts, class names and detail rows the results panel shows.
    JavaScript truthiness is written out: a missing string and the empty
    string are both false, and so are a missing confidence and 0. */
module Render {
  import opened Wrappers
  import opened Text

  /** The parsed reply of the quick-analysis request. Every field may be
      missing; `indicators` keeps the reply's own key order. */
  datatype Analysis = Analysis(
    signal: Option<string>,
    strength: Option<string>,
    confidence: Option<int>,
    reasoning: Option<string>,
    patterns: Option<seq<string>>,
    indicators: Option<seq<(string, string)>>,
    timeframe: Option<string>,
    symbol: Option<string>,
    riskAssessment: Option<string>)

  /** The three colour classes given to the badge and the card. */
  datatype SignalClass = Buy | Sell | Hold
  {
    function Token(): string
    {
      match this
      case Buy => "buy"
      case Sell => "sell"
      case Hold => "hold"
    }
  }

  /** One `detail-item` of the details grid. */
  datatype DetailItem = DetailItem(caption: string, value: string)

  /** What the results panel shows after one render. */
  datatype View = View(
    badgeText: string,
    badgeClassName: string,
    cardClassName: string,
    confidenceText: string,
    reasonText: string,
    details: seq<DetailItem>)

  const NotAvailable := "N/A"
  const ConfidenceSuffix := "% Confidence"
  const NoReasoning := "No specific reasoning provided."
  const PatternsLabel := "Patterns Detected"
  const SymbolLabel := "Symbol"
  const TimeframeLabel := "Timeframe"
  const RiskLabel := "Risk Assessment"

  /** JavaScript truthiness of an optional string. */
  predicate Truthy(o: Option<string>)
  {
    o.Some? && o.value != ""
  }

  /** `o || fallback` for an optional string. */
  function OrElse(o: Option<string>, fallback: string): string
  {
    if Truthy(o) then o.value else fallback
  }

  // ---------------------------------------------------------------------------
  // Badge text
  // ---------------------------------------------------------------------------

  /** `${strength || ''} ${signal || 'N/A'}`.trim() */
  function BadgeText(strength: Option<string>, signal: Option<string>): string
  {
    Trim(OrElse(strength, "") + " " + OrElse(signal, NotAvailable))
  }

  /** With neither strength nor signal the badge reads "N/A". */
  lemma BadgeTextFallback(strength: Option<string>, signal: Option<string>)
    requires !Truthy(strength) && !Truthy(signal)
    ensures BadgeText(strength, signal) == NotAvailable
  {
    assert OrElse(strength, "") + " " + OrElse(signal, NotAvailable) == " " + NotAvailable;
    TrimLeadingBlank(NotAvailable);
  }

  /** With no strength the badge is the trimmed signal. */
  lemma BadgeTextSignalOnly(strength: Option<string>, signal: Option<string>)
    requires !Truthy(strength) && Truthy(signal)
    ensures BadgeText(strength, signal) == Trim(signal.value)
  {
    var u := " " + signal.value;
    assert OrElse(strength, "") + " " + OrElse(signal, NotAvailable) == u;
    assert u[1..] == signal.value;
    assert TrimStart(u) == TrimStart(signal.value);
  }

  /** With a strength free of end blanks and no signal the badge is "<strength> N/A". */
  lemma BadgeTextStrengthOnly(strength: Option<string>, signal: Option<string>)
    requires Truthy(strength) && !Truthy(signal) && IsTrimmed(strength.value)
    ensures BadgeText(strength, signal) == strength.value + " " + NotAvailable
  {
    assert BadgeText(strength, signal) == BadgeText(strength, Some(NotAvailable));
    BadgeTextBoth(strength, Some(NotAvailable));
  }

  /** With both present and free of end blanks the badge is "<strength> <signal>". */
  lemma BadgeTextBoth(strength: Option<string>, signal: Option<string>)
    requires Truthy(strength) && Truthy(signal)
    requires IsTrimmed(strength.value) && IsTrimmed(signal.value)
    ensures BadgeText(strength, signal) == strength.value + " " + signal.value
  {
    var s := strength.value + " " + signal.value;
    assert s[0] == strength.value[0];
    assert s[|s| - 1] == signal.value[|signal.value| - 1];
  }

  /** The badge is empty exactly when the signal is present but all blanks and
      the strength is missing or all blanks; a missing signal never empties it. */
  lemma BadgeTextEmptyIff(strength: Option<string>, signal: Option<string>)
    ensures BadgeText(strength, signal) == [] <==>
              Truthy(signal) && AllWhitespace(signal.value) && AllWhitespace(OrElse(strength, ""))
  {
    var a, b := OrElse(strength, ""), OrElse(signal, NotAvailable);
    var s := a + " " + b;
    if AllWhitespace(s) {
      assert forall i :: 0 <= i < |a| ==> a[i] == s[i];
      assert forall i :: 0 <= i < |b| ==> b[i] == s[|a| + 1 + i];
      assert s[|a| + 1] == b[0];
    } else {
      var i :| 0 <= i < |s| && !IsJsWhitespace(s[i]);
      assert i < |a| || |a| + 1 <= i;
      if i < |a| {
        assert s[i] == a[i];
      } else {
        assert s[i] == b[i - |a| - 1];
      }
    }
  }

  // ---------------------------------------------------------------------------
  // Signal class
  // ---------------------------------------------------------------------------

  /** The `if/else` chain on the lower-cased signal: "buy" wins over "sell",
      "sell" over "hold", and anything else, missing or empty included, is Buy. */
  function ClassOf(signal: Option<string>): SignalClass
  {
    if !Truthy(signal) then Buy
    else
      var lower := ToLower(signal.value);
      if Contains(lower, "buy") then Buy
      else if Contains(lower, "sell") then Sell
      else if Contains(lower, "hold") then Hold
      else Buy
  }

  /** `word` occurs somewhere in `s`, ignoring ASCII case. */
  ghost predicate Mentions(s: string, word: string)
  {
    exists i: nat :: OccursAt(ToLower(s), word, i)
  }

  /** The class in terms of where the words occur: Sell exactly when the signal
      mentions "sell" but not "buy", Hold exactly when it mentions "hold" and
      neither of the others, Buy in every other case. */
  lemma ClassOfPriority(signal: Option<string>)
    ensures ClassOf(signal) == Sell <==>
              Truthy(signal) && !Mentions(signal.value, "buy") && Mentions(signal.value, "sell")
    ensures ClassOf(signal) == Hold <==>
              Truthy(signal) && !Mentions(signal.value, "buy") && !Mentions(signal.value, "sell")
              && Mentions(signal.value, "hold")
    ensures ClassOf(signal) == Buy <==>
              !Truthy(signal) || Mentions(signal.value, "buy")
              || (!Mentions(signal.value, "sell") && !Mentions(signal.value, "hold"))
  {
    if Truthy(signal) {
      var lower := ToLower(signal.value);
      ContainsIffOccurs(lower, "buy");
      ContainsIffOccurs(lower, "sell");
      ContainsIffOccurs(lower, "hold");
    }
  }

  /** A signal mentioning both "buy" and "sell", in any case, is classed Buy. */
  lemma ClassOfBuyBeatsSell(s: string)
    requires Mentions(s, "buy") && Mentions(s, "sell")
    ensures ClassOf(Some(s)) == Buy
  {
    ClassOfPriority(Some(s));
  }

  /** The class ignores ASCII case: upper- or lower-casing the signal does not change it. */
  lemma ClassOfIgnoresCase(s: string)
    ensures ClassOf(Some(ToUpper(s))) == ClassOf(Some(s))
    ensures ClassOf(Some(ToLower(s))) == ClassOf(Some(s))
  {
    LowerOfUpper(s);
    LowerIdempotent(s);
  }

  // ---------------------------------------------------------------------------
  // Confidence and reasoning
  // ---------------------------------------------------------------------------

  /** The confidence JavaScript shows: `confidence || 'N/A'` treats 0 like a missing value. */
  function ShownConfidence(c: Option<int>): Option<int>
  {
    if c.Some? && c.value != 0 then c else None
  }

  /** `${confidence || 'N/A'}% Confidence` */
  function ConfidenceText(c: Option<int>): string
  {
    (match ShownConfidence(c)
     case Some(n) => IntToDecimal(n)
     case None => NotAvailable) + ConfidenceSuffix
  }

  /** Two confidences read the same exactly when they agree once 0 is taken as
      missing; in particular 0 and a missing value both read "N/A% Confidence". */
  lemma ConfidenceTextDeterminesValue(c1: Option<int>, c2: Option<int>)
    ensures ConfidenceText(c1) == ConfidenceText(c2) <==> ShownConfidence(c1) == ShownConfidence(c2)
    ensures ShownConfidence(c1) == None ==> ConfidenceText(c1) == NotAvailable + ConfidenceSuffix
  {
    var h1 := if c1.Some? && c1.value != 0 then IntToDecimal(c1.value) else NotAvailable;
    var h2 := if c2.Some? && c2.value != 0 then IntToDecimal(c2.value) else NotAvailable;
    if ConfidenceText(c1) == ConfidenceText(c2) {
      assert |h1| == |h2|;
      assert h1 == ConfidenceText(c1)[..|h1|];
      assert h2 == ConfidenceText(c2)[..|h2|];
      if ShownConfidence(c1).Some? && ShownConfidence(c2).Some? {
        IntToDecimalInjective(c1.value, c2.value);
      } else if ShownConfidence(c1).Some? {
        NotAvailableIsNoNumber(c1.value);
      } else if ShownConfidence(c2).Some? {
        NotAvailableIsNoNumber(c2.value);
      }
    }
  }

  /** "N/A" is not the rendering of any integer. */
  lemma NotAvailableIsNoNumber(n: int)
    ensures IntToDecimal(n) != NotAvailable
  {
    if n >= 0 {
      assert IsDigit(IntToDecimal(n)[0]);
    }
  }

  /** `reasoning || 'No specific reasoning provided.'`: never empty, and the
      reasoning verbatim whenever there is one. */
  function ReasonText(reasoning: Option<string>): (r: string)
    ensures r != []
    ensures Truthy(reasoning) ==> r == reasoning.value
    ensures !Truthy(reasoning) ==> r == NoReasoning
  {
    OrElse(reasoning, NoReasoning)
  }

  // ---------------------------------------------------------------------------
  // Detail rows
  // ---------------------------------------------------------------------------

  /** `key.replace(/_/g, ' ').toUpperCase()`: same length as the key, no
      underscore and no lower-case ASCII letter left. */
  function IndicatorLabel(key: string): (r: string)
    ensures |r| == |key|
    ensures forall i :: 0 <= i < |r| ==> r[i] == UpperChar(if key[i] == '_' then ' ' else key[i])
    ensures forall i :: 0 <= i < |r| ==> r[i] != '_' && !IsAsciiLower(r[i])
  {
    ToUpper(UnderscoresToSpaces(key))
  }

  /** The row one indicator entry contributes: none when its value is empty. */
  function IndicatorRow(entry: (string, string)): seq<DetailItem>
  {
    if entry.1 != "" then [DetailItem(IndicatorLabel(entry.0), entry.1)] else []
  }

  /** The rows of the `forEach` over the indicator entries, in their order. */
  function IndicatorRows(entries: seq<(string, string)>): seq<DetailItem>
  {
    if entries == [] then [] else IndicatorRow(entries[0]) + IndicatorRows(entries[1..])
  }

  /** At most one row per entry; every row has a value and an underscore-free caption. */
  lemma {:induction false} IndicatorRowsShape(entries: seq<(string, string)>)
    ensures |IndicatorRows(entries)| <= |entries|
    ensures forall k :: 0 <= k < |IndicatorRows(entries)| ==>
              IndicatorRows(entries)[k].value != "" && '_' !in IndicatorRows(entries)[k].caption
    decreases |entries|
  {
    if entries != [] {
      IndicatorRowsShape(entries[1..]);
    }
  }

  /** Rows of consecutive runs of entries are the runs' rows one after the other. */
  lemma {:induction false} IndicatorRowsAppend(xs: seq<(string, string)>, ys: seq<(string, string)>)
    ensures IndicatorRows(xs + ys) == IndicatorRows(xs) + IndicatorRows(ys)
    decreases |xs|
  {
    if xs != [] {
      assert (xs + ys)[1..] == xs[1..] + ys;
      IndicatorRowsAppend(xs[1..], ys);
    } else {
      assert xs + ys == ys;
    }
  }

  /** One more entry adds that entry's row, if any, at the end. */
  lemma IndicatorRowsSnoc(xs: seq<(string, string)>, e: (string, string))
    ensures IndicatorRows(xs + [e]) == IndicatorRows(xs) + IndicatorRow(e)
  {
    IndicatorRowsAppend(xs, [e]);
    assert [e][1..] == [];
  }

  /** When no value is empty, row k is entry k, labelled. */
  lemma {:induction false} IndicatorRowsAllPresent(entries: seq<(string, string)>)
    requires forall k :: 0 <= k < |entries| ==> entries[k].1 != ""
    ensures |IndicatorRows(entries)| == |entries|
    ensures forall k :: 0 <= k < |entries| ==>
              IndicatorRows(entries)[k] == DetailItem(IndicatorLabel(entries[k].0), entries[k].1)
    decreases |entries|
  {
    if entries != [] {
      IndicatorRowsAllPresent(entries[1..]);
    }
  }

  /** A row of its own when the value is truthy. */
  function OptionalRow(caption: string, value: Option<string>): seq<DetailItem>
  {
    if Truthy(value) then [DetailItem(caption, value.value)] else []
  }

  /** The patterns row: present only for a non-empty list, joined by ", ". */
  function PatternRows(patterns: Option<seq<string>>): seq<DetailItem>
  {
    if patterns.Some? && |patterns.value| > 0 then [DetailItem(PatternsLabel, Join(patterns.value, ", "))] else []
  }

  function IndicatorEntries(a: Analysis): seq<(string, string)>
  {
    if a.indicators.Some? then a.indicators.value else []
  }

  /** The grid after `displayResults`: cleared, then patterns, indicators,
      symbol, timeframe and risk assessment. */
  function DetailRows(a: Analysis): seq<DetailItem>
  {
    LeadingRows(a) + OptionalRow(SymbolLabel, a.symbol) + OptionalRow(TimeframeLabel, a.timeframe)
    + OptionalRow(RiskLabel, a.riskAssessment)
  }

  /** The rows before the fixed trailing ones: patterns, then indicators. */
  function LeadingRows(a: Analysis): seq<DetailItem>
  {
    PatternRows(a.patterns) + IndicatorRows(IndicatorEntries(a))
  }

  /** Position of a row's kind in the grid's fixed order. Indicator labels are
      upper case, so none of them equals one of the fixed labels. */
  function Rank(caption: string): nat
  {
    if caption == PatternsLabel then 0
    else if caption == SymbolLabel then 2
    else if caption == TimeframeLabel then 3
    else if caption == RiskLabel then 4
    else 1
  }

  lemma IndicatorLabelRank(key: string)
    ensures Rank(IndicatorLabel(key)) == 1
  {
    var l := IndicatorLabel(key);
    assert l != PatternsLabel by { if |l| == |PatternsLabel| { assert !IsAsciiLower(l[1]); } }
    assert l != SymbolLabel by { if |l| == |SymbolLabel| { assert !IsAsciiLower(l[1]); } }
    assert l != TimeframeLabel by { if |l| == |TimeframeLabel| { assert !IsAsciiLower(l[1]); } }
    assert l != RiskLabel by { if |l| == |RiskLabel| { assert !IsAsciiLower(l[1]); } }
  }

  lemma {:induction false} IndicatorRowsRank(entries: seq<(string, string)>)
    ensures forall k :: 0 <= k < |IndicatorRows(entries)| ==> Rank(IndicatorRows(entries)[k].caption) == 1
    decreases |entries|
  {
    if entries != [] {
      IndicatorLabelRank(entries[0].0);
      IndicatorRowsRank(entries[1..]);
    }
  }

  /** Row `x` may come before row `y`: a lower rank, or two indicator rows. */
  predicate Precedes(x: DetailItem, y: DetailItem)
  {
    Rank(x.caption) < Rank(y.caption) || (Rank(x.caption) == 1 && Rank(y.caption) == 1)
  }

  /** Rows in the grid's fixed order, each fixed row at most once. */
  predicate InGridOrder(rows: seq<DetailItem>)
  {
    forall i, j :: 0 <= i < j < |rows| ==> Precedes(rows[i], rows[j])
  }

  /** Appending rows of rank `r` (several only for indicators) after rows of lower rank keeps the order. */
  lemma AppendInGridOrder(xs: seq<DetailItem>, ys: seq<DetailItem>, r: nat)
    requires InGridOrder(xs)
    requires forall k :: 0 <= k < |xs| ==> Rank(xs[k].caption) < r
    requires forall k :: 0 <= k < |ys| ==> Rank(ys[k].caption) == r
    requires r == 1 || |ys| <= 1
    ensures InGridOrder(xs + ys)
    ensures forall k :: 0 <= k < |xs + ys| ==> Rank((xs + ys)[k].caption) <= r
  {
    var zs := xs + ys;
    forall i, j | 0 <= i < j < |zs| ensures Precedes(zs[i], zs[j]) {
      if j < |xs| {
        assert Precedes(xs[i], xs[j]);
      } else if i < |xs| {
        assert Rank(zs[i].caption) < r == Rank(zs[j].caption);
      } else {
        assert Rank(zs[i].caption) == r == Rank(zs[j].caption);
      }
    }
  }

  /** The grid's rows come in the fixed order patterns, indicators, symbol,
      timeframe, risk assessment, and each fixed row appears at most once. */
  lemma DetailRowsOrdered(a: Analysis)
    ensures forall i, j :: 0 <= i < j < |DetailRows(a)| ==>
              Rank(DetailRows(a)[i].caption) < Rank(DetailRows(a)[j].caption)
              || (Rank(DetailRows(a)[i].caption) == 1 && Rank(DetailRows(a)[j].caption) == 1)
  {
    var p := PatternRows(a.patterns);
    var ind := IndicatorRows(IndicatorEntries(a));
    var sy := OptionalRow(SymbolLabel, a.symbol);
    var tf := OptionalRow(TimeframeLabel, a.timeframe);
    IndicatorRowsRank(IndicatorEntries(a));
    AppendInGridOrder(p, ind, 1);
    AppendInGridOrder(p + ind, sy, 2);
    AppendInGridOrder(p + ind + sy, tf, 3);
    AppendInGridOrder(p + ind + sy + tf, OptionalRow(RiskLabel, a.riskAssessment), 4);
    assert InGridOrder(DetailRows(a));
  }

  // ---------------------------------------------------------------------------
  // The whole projection
  // ---------------------------------------------------------------------------

  /** Everything one call of `displayResults` writes into the results panel. */
  function Project(a: Analysis): View
  {
    var cls := ClassOf(a.signal).Token();
    View(BadgeText(a.strength, a.signal),
         "signal-badge " + cls,
         "signal-card " + cls,
         ConfidenceText(a.confidence),
         ReasonText(a.reasoning),
         DetailRows(a))
  }

  /** The badge and the card carry the same class, one of "buy", "sell" and "hold". */
  lemma ProjectClassesAgree(a: Analysis)
    ensures exists t :: t in {"buy", "sell", "hold"}
              && Project(a).badgeClassName == "signal-badge " + t
              && Project(a).cardClassName == "signal-card " + t
  {
    var t := ClassOf(a.signal).Token();
    assert t == "buy" || t == "sell" || t == "hold";
    assert Project(a).badgeClassName == "signal-badge " + t;
    assert Project(a).cardClassName == "signal-card " + t;
  }

  /** The worked example: a STRONG BUY at 82 with one pattern and one indicator. */
  const StrongBuyReply := Analysis(Some("BUY"), Some("STRONG"), Some(82), None,
                                   Some(["Bullish Engulfing"]), Some([("rsi", "28 (Oversold)")]),
                                   None, None, None)

  lemma StrongBuyExample()
    ensures Project(StrongBuyReply) ==
              View("STRONG BUY", "signal-badge buy", "signal-card buy", "82% Confidence", NoReasoning,
                   [DetailItem(PatternsLabel, "Bullish Engulfing"), DetailItem("RSI", "28 (Oversold)")])
  {
    ExampleBadge();
    ExampleClass();
    ExampleConfidence();
    ExampleRows();
  }

  lemma ExampleBadge()
    ensures BadgeText(Some("STRONG"), Some("BUY")) == "STRONG BUY"
  {
    BadgeTextBoth(Some("STRONG"), Some("BUY"));
  }

  lemma ExampleClass()
    ensures ClassOf(Some("BUY")) == Buy
  {
    var lower := ToLower("BUY");
    assert lower == "buy" by {
      assert lower[0] == 'b' && lower[1] == 'u' && lower[2] == 'y';
    }
    assert StartsWith(lower, "buy");
  }

  lemma ExampleConfidence()
    ensures ConfidenceText(Some(82)) == "82% Confidence"
  {
    assert NatToDecimal(82) == NatToDecimal(8) + [DigitChar(2)];
    assert IntToDecimal(82) == "82";
  }

  lemma ExampleRows()
    ensures DetailRows(StrongBuyReply) == [DetailItem(PatternsLabel, "Bullish Engulfing"), DetailItem("RSI", "28 (Oversold)")]
  {
    var rsi := IndicatorLabel("rsi");
    assert rsi == "RSI" by {
      assert rsi[0] == 'R' && rsi[1] == 'S' && rsi[2] == 'I';
    }
    var e := [("rsi", "28 (Oversold)")];
    assert e[1..] == [];
    assert IndicatorRows(e) == IndicatorRow(e[0]) + IndicatorRows(e[1..]);
  }
}
