/** Buy/sell signal detection of `calculate_indicators_with_signals` (app.py): a crossover
    rule for MA, KD and MACD, a 30/70 threshold-crossing rule for RSI. The indicator series
    themselves come from TA-Lib and are inputs here. */
module Signals {
  import opened Common

  /** One float64 entry of a pandas series: a finite number or NaN (a missing value). */
  datatype Num = NaN | Fin(value: real)

  // Python comparisons: any comparison that involves NaN is False.
  predicate Greater(a: Num, b: Num) { a.Fin? && b.Fin? && a.value > b.value }
  predicate Less(a: Num, b: Num) { a.Fin? && b.Fin? && a.value < b.value }
  predicate AtLeast(a: Num, b: Num) { a.Fin? && b.Fin? && a.value >= b.value }
  predicate AtMost(a: Num, b: Num) { a.Fin? && b.Fin? && a.value <= b.value }

  /** RSI below this level is oversold. */
  const RsiOversold: real := 30.0
  /** RSI above this level is overbought. */
  const RsiOverbought: real := 70.0

  /** The two rules a signal loop applies at each index. */
  datatype Rule =
    | Crossover(fast: seq<Num>, slow: seq<Num>)   // ma5/ma20, k/d, macd/signal
    | Threshold(series: seq<Num>)                  // rsi against 30 and 70

  /** The two series of a crossover are aligned (TA-Lib returns input-length series). */
  predicate WellFormed(rule: Rule) {
    rule.Crossover? ==> |rule.fast| == |rule.slow|
  }

  /** The bound of the loop's `range(1, n)`. */
  function Length(rule: Rule): nat {
    match rule
    case Crossover(fast, _) => |fast|
    case Threshold(series) => |series|
  }

  /** What the loop body appends at index `i`, if anything: the `if` branch gives 'buy',
      the `elif` branch 'sell'. */
  function SignalAt(rule: Rule, i: nat): Option<SignalType>
    requires WellFormed(rule) && 1 <= i < Length(rule)
  {
    match rule
    case Crossover(f, s) =>
      if Greater(f[i], s[i]) && AtMost(f[i - 1], s[i - 1]) then Some(Buy)
      else if Less(f[i], s[i]) && AtLeast(f[i - 1], s[i - 1]) then Some(Sell)
      else None
    case Threshold(r) =>
      if Less(r[i], Fin(RsiOversold)) && AtLeast(r[i - 1], Fin(RsiOversold)) then Some(Buy)
      else if Greater(r[i], Fin(RsiOverbought)) && AtMost(r[i - 1], Fin(RsiOverbought)) then Some(Sell)
      else None
  }

  /** The list a signal loop has built once it has handled indices 1 .. k-1. */
  function Emitted(rule: Rule, k: nat): seq<Signal>
    requires WellFormed(rule) && k <= Length(rule)
  {
    if k <= 1 then []
    else
      Emitted(rule, k - 1) +
      match SignalAt(rule, k - 1)
      case None => []
      case Some(t) => [Signal(k - 1, t)]
  }

  /** Shape of a family's list over a series of length `n`: positions in [1, n-1],
      strictly increasing (so at most one record per position). */
  predicate WellFormedSignals(signals: seq<Signal>, n: nat) {
    && (forall j :: 0 <= j < |signals| ==> 1 <= signals[j].position < n)
    && (forall j, l :: 0 <= j < l < |signals| ==> signals[j].position < signals[l].position)
  }

  lemma {:induction false} EmittedWellFormed(rule: Rule, k: nat)
    requires WellFormed(rule) && k <= Length(rule)
    ensures WellFormedSignals(Emitted(rule, k), k)
  {
    if k > 1 {
      EmittedWellFormed(rule, k - 1);
    }
  }

  /** A record is in the list exactly when the rule fires with that type at that index. */
  lemma {:induction false} EmittedMembership(rule: Rule, k: nat, i: nat, t: SignalType)
    requires WellFormed(rule) && k <= Length(rule)
    ensures Signal(i, t) in Emitted(rule, k) <==> 1 <= i < k && SignalAt(rule, i) == Some(t)
  {
    if k > 1 {
      EmittedMembership(rule, k - 1, i, t);
      EmittedWellFormed(rule, k - 1);
    }
  }

  /** The MA, KD and MACD rule, stated on the two series: a buy at `i` exactly when the fast
      line is now above the slow one and was not above it before; a sell exactly when it is
      now below and was not below before. */
  lemma CrossoverSignals(fast: seq<Num>, slow: seq<Num>, i: nat)
    requires |fast| == |slow|
    ensures Signal(i, Buy) in Emitted(Crossover(fast, slow), |fast|) <==>
      1 <= i < |fast| && Greater(fast[i], slow[i]) && AtMost(fast[i - 1], slow[i - 1])
    ensures Signal(i, Sell) in Emitted(Crossover(fast, slow), |fast|) <==>
      1 <= i < |fast| && Less(fast[i], slow[i]) && AtLeast(fast[i - 1], slow[i - 1])
  {
    EmittedMembership(Crossover(fast, slow), |fast|, i, Buy);
    EmittedMembership(Crossover(fast, slow), |fast|, i, Sell);
  }

  /** The RSI rule: a buy when RSI falls below 30 from at or above it, a sell when it rises
      above 70 from at or below it. */
  lemma ThresholdSignals(rsi: seq<Num>, i: nat)
    ensures Signal(i, Buy) in Emitted(Threshold(rsi), |rsi|) <==>
      1 <= i < |rsi| && rsi[i].Fin? && rsi[i - 1].Fin?
      && rsi[i].value < RsiOversold && rsi[i - 1].value >= RsiOversold
    ensures Signal(i, Sell) in Emitted(Threshold(rsi), |rsi|) <==>
      1 <= i < |rsi| && rsi[i].Fin? && rsi[i - 1].Fin?
      && rsi[i].value > RsiOverbought && rsi[i - 1].value <= RsiOverbought
  {
    EmittedMembership(Threshold(rsi), |rsi|, i, Buy);
    EmittedMembership(Threshold(rsi), |rsi|, i, Sell);
  }

  /** Every series the rule reads at indices `i-1` and `i` holds a number there. */
  predicate PresentAround(rule: Rule, i: nat)
    requires WellFormed(rule) && 1 <= i < Length(rule)
  {
    match rule
    case Crossover(f, s) => f[i].Fin? && s[i].Fin? && f[i - 1].Fin? && s[i - 1].Fin?
    case Threshold(r) => r[i].Fin? && r[i - 1].Fin?
  }

  /** A missing value at `i` or `i-1` silences the rule at `i`. */
  lemma MissingValueSilences(rule: Rule, i: nat, t: SignalType)
    requires WellFormed(rule) && 1 <= i < Length(rule)
    requires !PresentAround(rule, i)
    ensures Signal(i, t) !in Emitted(rule, Length(rule))
  {
    EmittedMembership(rule, Length(rule), i, t);
  }

  /** Some series the rule reads is NaN at `j` (for the MA pair, the longer ma20 gap
      counts as well as the ma5 one). */
  predicate MissingAt(rule: Rule, j: nat)
    requires WellFormed(rule) && j < Length(rule)
  {
    match rule
    case Crossover(f, s) => f[j] == NaN || s[j] == NaN
    case Threshold(r) => r[j] == NaN
  }

  /** No signal inside a warm-up gap: if at each of the first `w` bars some series the rule
      reads is NaN, every position in the list is greater than `w`. */
  lemma {:induction false} NoSignalInWarmUp(rule: Rule, w: nat)
    requires WellFormed(rule) && w <= Length(rule)
    requires forall j :: 0 <= j < w ==> MissingAt(rule, j)
    ensures forall s :: s in Emitted(rule, Length(rule)) ==> s.position > w
  {
    forall s | s in Emitted(rule, Length(rule)) ensures s.position > w {
      EmittedMembership(rule, Length(rule), s.position, s.kind);
      FiringNeedsValues(rule, s.position);
      assert !MissingAt(rule, s.position - 1);
    }
  }

  /** The rule fires only where every value it compares is present. */
  lemma FiringNeedsValues(rule: Rule, i: nat)
    requires WellFormed(rule) && 1 <= i < Length(rule)
    ensures SignalAt(rule, i).Some? ==> PresentAround(rule, i)
  {
  }

  /** One MA/KD/MACD loop of app.py: `for i in range(1, len(fast))`. */
  method DetectCrossovers(fast: seq<Num>, slow: seq<Num>) returns (signals: seq<Signal>)
    requires |fast| == |slow|
    ensures signals == Emitted(Crossover(fast, slow), |fast|)
    ensures WellFormedSignals(signals, |fast|)
  {
    ghost var rule := Crossover(fast, slow);
    var n := |fast|;
    signals := [];
    var i := 1;
    while i < n
      invariant i <= n ==> signals == Emitted(rule, i)
      invariant i > n ==> n == 0 && signals == []
    {
      if Greater(fast[i], slow[i]) && AtMost(fast[i - 1], slow[i - 1]) {
        signals := signals + [Signal(i, Buy)];
      } else if Less(fast[i], slow[i]) && AtLeast(fast[i - 1], slow[i - 1]) {
        signals := signals + [Signal(i, Sell)];
      }
      i := i + 1;
    }
    EmittedWellFormed(rule, n);
  }

  /** The RSI loop of app.py: `for i in range(1, len(rsi))`. */
  method DetectThresholdCrossings(rsi: seq<Num>) returns (signals: seq<Signal>)
    ensures signals == Emitted(Threshold(rsi), |rsi|)
    ensures WellFormedSignals(signals, |rsi|)
  {
    ghost var rule := Threshold(rsi);
    var n := |rsi|;
    signals := [];
    var i := 1;
    while i < n
      invariant i <= n ==> signals == Emitted(rule, i)
      invariant i > n ==> n == 0 && signals == []
    {
      if Less(rsi[i], Fin(RsiOversold)) && AtLeast(rsi[i - 1], Fin(RsiOversold)) {
        signals := signals + [Signal(i, Buy)];
      } else if Greater(rsi[i], Fin(RsiOverbought)) && AtMost(rsi[i - 1], Fin(RsiOverbought)) {
        signals := signals + [Signal(i, Sell)];
      }
      i := i + 1;
    }
    EmittedWellFormed(rule, n);
  }

  /** What TA-Lib and the two pandas expressions hand to the signal loops. */
  datatype TalibOutput = TalibOutput(
    volatility: Num, percentChange: Num,
    ma5: seq<Num>, ma20: seq<Num>, ma60: seq<Num>,
    k: seq<Num>, d: seq<Num>,
    macd: seq<Num>, macdSignal: seq<Num>, macdHist: seq<Num>,
    rsi: seq<Num>)

  /** Every TA-Lib series has one entry per bar. */
  predicate Aligned(t: TalibOutput, n: nat) {
    && |t.ma5| == n && |t.ma20| == n && |t.ma60| == n
    && |t.k| == n && |t.d| == n
    && |t.macd| == n && |t.macdSignal| == n && |t.macdHist| == n
    && |t.rsi| == n
  }

  /** An entry of the `indicators` dict: a pandas series or a float. */
  datatype IndicatorValue = Series(values: seq<Num>) | Scalar(x: Num)

  /** The keys of the `indicators` dict, in insertion order. */
  datatype IndicatorKey =
    | Volatility | PercentChange | Ma5 | Ma20 | Ma60 | K | D | Macd | MacdSignal | MacdHist | Rsi

  /** The key as it appears in the dict and in the JSON response. */
  function IndicatorName(key: IndicatorKey): string {
    match key
    case Volatility => "volatility"
    case PercentChange => "percent_change"
    case Ma5 => "ma5"
    case Ma20 => "ma20"
    case Ma60 => "ma60"
    case K => "k"
    case D => "d"
    case Macd => "macd"
    case MacdSignal => "macd_signal"
    case MacdHist => "macd_hist"
    case Rsi => "rsi"
  }

  /** The keys of the `signals` dict. */
  datatype Family = MaFamily | KdFamily | MacdFamily | RsiFamily

  function FamilyName(f: Family): string {
    match f
    case MaFamily => "ma"
    case KdFamily => "kd"
    case MacdFamily => "macd"
    case RsiFamily => "rsi"
  }

  /** The TA-Lib output an indicator key holds. */
  function IndicatorOf(t: TalibOutput, key: IndicatorKey): IndicatorValue {
    match key
    case Volatility => Scalar(t.volatility)
    case PercentChange => Scalar(t.percentChange)
    case Ma5 => Series(t.ma5)
    case Ma20 => Series(t.ma20)
    case Ma60 => Series(t.ma60)
    case K => Series(t.k)
    case D => Series(t.d)
    case Macd => Series(t.macd)
    case MacdSignal => Series(t.macdSignal)
    case MacdHist => Series(t.macdHist)
    case Rsi => Series(t.rsi)
  }

  /** The whole `indicators` dict: every key with its TA-Lib output. */
  function IndicatorMap(t: TalibOutput): map<IndicatorKey, IndicatorValue> {
    map key: IndicatorKey | true :: IndicatorOf(t, key)
  }

  /** The rule a family's loop applies. */
  function FamilyRule(t: TalibOutput, f: Family): Rule {
    match f
    case MaFamily => Crossover(t.ma5, t.ma20)
    case KdFamily => Crossover(t.k, t.d)
    case MacdFamily => Crossover(t.macd, t.macdSignal)
    case RsiFamily => Threshold(t.rsi)
  }

  /** The whole `signals` dict: every family with the list its rule gives over `n` bars. */
  function SignalMap(t: TalibOutput, n: nat): map<Family, seq<Signal>>
    requires Aligned(t, n)
  {
    map f: Family | true :: Emitted(FamilyRule(t, f), n)
  }

  /** `calculate_indicators_with_signals` for a frame of `n` bars: the indicator dict
      holds every TA-Lib output under its key, and each family's list is the one its loop
      builds, so it has the shape of WellFormedSignals. */
  method CalculateIndicatorsWithSignals(n: nat, t: TalibOutput)
    returns (indicators: map<IndicatorKey, IndicatorValue>, signals: map<Family, seq<Signal>>)
    requires Aligned(t, n)
    ensures forall key: IndicatorKey :: key in indicators && indicators[key] == IndicatorOf(t, key)
    ensures forall f: Family :: f in signals && WellFormed(FamilyRule(t, f))
                                && Length(FamilyRule(t, f)) == n
                                && signals[f] == Emitted(FamilyRule(t, f), n)
                                && WellFormedSignals(signals[f], n)
  {
    indicators := map[];
    signals := map[];
    indicators := indicators[Volatility := Scalar(t.volatility)];
    indicators := indicators[PercentChange := Scalar(t.percentChange)];

    indicators := indicators[Ma5 := Series(t.ma5)];
    indicators := indicators[Ma20 := Series(t.ma20)];
    indicators := indicators[Ma60 := Series(t.ma60)];
    var ma := DetectCrossovers(t.ma5, t.ma20);
    signals := signals[MaFamily := ma];

    indicators := indicators[K := Series(t.k)];
    indicators := indicators[D := Series(t.d)];
    var kd := DetectCrossovers(t.k, t.d);
    signals := signals[KdFamily := kd];

    indicators := indicators[Macd := Series(t.macd)];
    indicators := indicators[MacdSignal := Series(t.macdSignal)];
    indicators := indicators[MacdHist := Series(t.macdHist)];
    var macd := DetectCrossovers(t.macd, t.macdSignal);
    signals := signals[MacdFamily := macd];

    indicators := indicators[Rsi := Series(t.rsi)];
    var rsi := DetectThresholdCrossings(t.rsi);
    signals := signals[RsiFamily := rsi];

    forall key: IndicatorKey ensures key in indicators && indicators[key] == IndicatorOf(t, key) {
      match key
      case Volatility =>
      case PercentChange =>
      case Ma5 =>
      case Ma20 =>
      case Ma60 =>
      case K =>
      case D =>
      case Macd =>
      case MacdSignal =>
      case MacdHist =>
      case Rsi =>
    }
    forall f: Family
      ensures f in signals && WellFormed(FamilyRule(t, f)) && Length(FamilyRule(t, f)) == n
      ensures signals[f] == Emitted(FamilyRule(t, f), n) && WellFormedSignals(signals[f], n)
    {
      match f
      case MaFamily =>
      case KdFamily =>
      case MacdFamily =>
      case RsiFamily =>
    }
  }
}
