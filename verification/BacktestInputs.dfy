/** What a backtest reads and what its trades are worth, in plain arithmetic (app/services/backtest_jobs.py, app/backtest/core.py). */
module BacktestInputs {
  import opened Prelude
  import opened Domain
  import opened BacktestTrade
  import opened BacktestRun
  import opened BacktestProperties
  import Risk

  /** The profit of a long that leaves at e, each half at its own price. */
  predicate IsLongProfit(p: Plan, cs: seq<Candle>, e: Exit, pnl: real)
    requires 0 < |cs| && (e.Trailed? ==> e.bar <= e.last < |cs|)
  {
    match e
    case Untouched => pnl == cs[|cs| - 1].close - p.entry
    case Stopped(_) => pnl == Max(p.entry - p.stopDist, 0.0) - p.entry
    case Half(_) => pnl == p.tpDist / 2.0 + (cs[|cs| - 1].close - p.entry) / 2.0
    case Trailed(i, j) => pnl == p.tpDist / 2.0 + (Max(HighSince(p, cs, i, j) - p.trail, 0.0) - p.entry) / 2.0
  }

  /** The profit of a short that leaves at e. */
  predicate IsShortProfit(p: Plan, cs: seq<Candle>, e: Exit, pnl: real)
    requires 0 < |cs| && (e.Trailed? ==> e.bar <= e.last < |cs|)
  {
    var half := (p.entry - Max(p.entry - p.tpDist, 0.0)) / 2.0;
    match e
    case Untouched => pnl == p.entry - cs[|cs| - 1].close
    case Stopped(_) => pnl == -p.stopDist
    case Half(_) => pnl == half + (p.entry - cs[|cs| - 1].close) / 2.0
    case Trailed(i, j) => pnl == half + (p.entry - LowSince(p, cs, i, j) - p.trail) / 2.0
  }

  /** A long earns exactly that at its first-touch exit, and its return is the profit over the entry price. */
  lemma LongProfit(p: Plan, cs: seq<Candle>, from: nat, e: Exit)
    requires 0 < |cs| && p.entry > 0.0 && IsLongExit(p, cs, from, |cs|, e)
    ensures IsLongProfit(p, cs, e, LongTrade(p, cs, from).pnl)
    ensures LongTrade(p, cs, from).ret * p.entry == LongTrade(p, cs, from).pnl
  {
    LongExitMeaning(p, cs, from, |cs|, e);
    LongTradeBooks(p, cs, from);
    FillsWorth(LongFills(p, cs, e), p.entry);
  }

  lemma ShortProfit(p: Plan, cs: seq<Candle>, from: nat, e: Exit)
    requires 0 < |cs| && p.entry > 0.0 && IsShortExit(p, cs, from, |cs|, e)
    ensures IsShortProfit(p, cs, e, ShortTrade(p, cs, from).pnl)
    ensures ShortTrade(p, cs, from).ret * p.entry == ShortTrade(p, cs, from).pnl
  {
    ShortExitMeaning(p, cs, from, |cs|, e);
    ShortTradeBooks(p, cs, from);
    FillsWorth(ShortFills(p, cs, e), p.entry);
  }

  lemma FillsWorth(fills: seq<Fill>, entry: real)
    ensures |fills| == 1 ==> Worth(fills, entry) == fills[0].quantity * (fills[0].price - entry)
    ensures |fills| == 2 ==>
              Worth(fills, entry) == fills[0].quantity * (fills[0].price - entry) + fills[1].quantity * (fills[1].price - entry)
  {
    if |fills| == 1 {
      OneFill(fills[0], entry);
      assert fills == [fills[0]];
    } else if |fills| == 2 {
      TwoFills(fills[0], fills[1], entry);
      assert fills == [fills[0], fills[1]];
    }
  }

  /** A signal is simulated exactly when the next bar exists and its slipped open is positive. */
  lemma SignalIsSimulated(cs: seq<Candle>, signal: Signal, ps: Params)
    ensures TradeOf(cs, signal, ps).Ok? <==>
              signal.index + 1 < |cs| && Slipped(cs[signal.index + 1].open, signal.side, ps.slippagePct) > 0.0
  {
  }

  /** It enters at that price with levels at multiples of the ATR; sell signals go short, all others long. */
  lemma TradeOfSignal(cs: seq<Candle>, signal: Signal, ps: Params, entry: real, atr: real)
    requires signal.index + 1 < |cs| && entry == Slipped(cs[signal.index + 1].open, signal.side, ps.slippagePct) > 0.0
    requires atr == AtrAt(cs, signal.index, ps.atrPeriod)
    ensures var p := PlanFrom(entry, atr, ps.stopMult, ps.tpMult, ps.trailMult);
      TradeOf(cs, signal, ps)
      == Ok(if signal.side == Sell then ShortTrade(p, cs, signal.index + 1) else LongTrade(p, cs, signal.index + 1))
  {
    assert EntryPrice(cs, signal, ps.slippagePct) == Ok(entry);
  }

  lemma PlanLevels(entry: real, atr: real, stopMult: real, tpMult: real, trailMult: real)
    ensures var p := PlanFrom(entry, atr, stopMult, tpMult, trailMult);
      p.entry == entry && p.stopDist == atr * stopMult && p.tpDist == atr * tpMult && p.trail == atr * trailMult
  {
  }

  /** Slippage moves the open by its percentage: up for buys, down for all others. */
  lemma SlippageMoves(raw: real, side: Side, pct: real)
    ensures Slipped(raw, side, pct) == raw + (if side == Buy then raw * (pct / 100.0) else -(raw * (pct / 100.0)))
  {
  }

  /**
   It is never in the trader's favour on buys and sells. A side that is neither is simulated as a long but slipped
   like a sell, so it always is.
   */
  lemma SlippageAgainstTrader(raw: real, side: Side, pct: real)
    requires raw > 0.0 && pct > 0.0
    ensures side == Buy ==> Slipped(raw, side, pct) > raw
    ensures side == Sell || side.OtherSide? ==> Slipped(raw, side, pct) < raw
  {
    SlippageMoves(raw, side, pct);
    MulStrict(raw, 0.0, pct / 100.0);
  }

  /** The ATR reads the last `period` bars up to the signal bar, fewer at the start of the data, and no others. */
  lemma AtrWindowBars(cs: seq<Candle>, signalIndex: nat, period: int, n: nat)
    requires signalIndex < |cs| && period >= 1 && n == if period <= signalIndex + 1 then period else signalIndex + 1
    ensures AtrWindow(cs, signalIndex, period) == cs[signalIndex + 1 - n..signalIndex + 1]
  {
  }

  /** The true range of bar j of a window: its own range, or the gap from the previous close if that reaches further. */
  function RangeWithGap(w: seq<Candle>, j: nat): real
    requires j < |w|
  {
    var previous := if j == 0 then w[0].close else w[j - 1].close;
    Max(Max(w[j].high - w[j].low, Abs(w[j].high - previous)), Abs(w[j].low - previous))
  }

  /** The ATR of a signal is the mean of those over the window, and never below 1e-9. */
  lemma AtrOfSignal(cs: seq<Candle>, signalIndex: nat, period: int, w: seq<Candle>, trs: seq<real>)
    requires w == AtrWindow(cs, signalIndex, period) && w != []
    requires |trs| == |w| && forall j :: 0 <= j < |w| ==> trs[j] == RangeWithGap(w, j)
    ensures AtrAt(cs, signalIndex, period) == Max(Mean(Sum(trs), |trs|), 0.000000001)
  {
    RangesOfWindow(w, trs);
  }

  lemma RangesOfWindow(w: seq<Candle>, trs: seq<real>)
    requires w != [] && |trs| == |w| && forall j :: 0 <= j < |w| ==> trs[j] == RangeWithGap(w, j)
    ensures Risk.Atr(Highs(w), Lows(w), Closes(w)) == Mean(Sum(trs), |trs|)
  {
    var all := Risk.TrueRanges(Highs(w), Lows(w), Closes(w), |w|);
    forall j | 0 <= j < |w| ensures all[j] == trs[j] {
      RangeOfBar(w, j);
    }
    assert all == trs;
  }

  lemma RangeOfBar(w: seq<Candle>, j: nat)
    requires j < |w|
    ensures Risk.TrueRange(Highs(w), Lows(w), Closes(w), j) == RangeWithGap(w, j)
  {
    assert Highs(w)[j] == w[j].high && Lows(w)[j] == w[j].low && Closes(w)[j] == w[j].close;
    if j > 0 { assert Closes(w)[j - 1] == w[j - 1].close; }
  }

  /** A gap counts: the true range reaches at least from the previous close to either end of the bar. */
  lemma GapCounts(w: seq<Candle>, j: nat)
    requires 0 < j < |w|
    ensures RangeWithGap(w, j) >= w[j].high - w[j - 1].close && RangeWithGap(w, j) >= w[j - 1].close - w[j].low
    ensures RangeWithGap(w, j) >= w[j].high - w[j].low
  {
  }
}
