/** One backtest: entry price, ATR window and the choice of simulator (app/services/backtest_jobs.py). */
module BacktestRun {
  import opened Prelude
  import opened Domain
  import Risk
  import opened BacktestTrade

  datatype Params = Params(slippagePct: real, atrPeriod: int, stopMult: real, tpMult: real, trailMult: real)

  /** The N+1 open, moved against the trader by the slippage percentage (app/backtest/core.py). */
  function EntryPrice(candles: seq<Candle>, signal: Signal, slippagePct: real): Result<real, string> {
    if signal.index + 1 >= |candles| then Err("N+1 candle required")
    else Ok(Slipped(candles[signal.index + 1].open, signal.side, slippagePct))
  }

  function Slipped(raw: real, side: Side, slippagePct: real): real {
    if side == Buy then raw * (1.0 + slippagePct / 100.0) else raw * (1.0 - slippagePct / 100.0)
  }

  function Highs(cs: seq<Candle>): seq<real> { seq(|cs|, i requires 0 <= i < |cs| => cs[i].high) }
  function Lows(cs: seq<Candle>): seq<real> { seq(|cs|, i requires 0 <= i < |cs| => cs[i].low) }
  function Closes(cs: seq<Candle>): seq<real> { seq(|cs|, i requires 0 <= i < |cs| => cs[i].close) }

  /** The last atrPeriod candles up to and including the signal bar. */
  function AtrWindow(candles: seq<Candle>, signalIndex: nat, atrPeriod: int): seq<Candle> {
    var from := if signalIndex - atrPeriod + 1 > 0 then signalIndex - atrPeriod + 1 else 0;
    var to := if signalIndex + 1 < |candles| then signalIndex + 1 else |candles|;
    if from < to then candles[from..to] else []
  }

  function AtrAt(candles: seq<Candle>, signalIndex: nat, atrPeriod: int): real {
    var w := AtrWindow(candles, signalIndex, atrPeriod);
    if w == [] then 1.0 else Max(Risk.Atr(Highs(w), Lows(w), Closes(w)), 0.000000001)
  }

  function PlanOf(candles: seq<Candle>, signal: Signal, ps: Params, entry: real): Plan {
    PlanFrom(entry, AtrAt(candles, signal.index, ps.atrPeriod), ps.stopMult, ps.tpMult, ps.trailMult)
  }

  /** Sell signals run the short simulator, every other side the long one. */
  function TradeOn(p: Plan, candles: seq<Candle>, side: Side, from: nat): Trade
    requires 0 < |candles|
  {
    if side == Sell then ShortTrade(p, candles, from) else LongTrade(p, candles, from)
  }

  function TradeOf(candles: seq<Candle>, signal: Signal, ps: Params): Result<Trade, string> {
    match EntryPrice(candles, signal, ps.slippagePct)
    case Err(e) => Err(e)
    case Ok(entry) =>
      if entry <= 0.0 then Err("invalid_entry_price")
      else
        var p := PlanOf(candles, signal, ps, entry);
        Ok(TradeOn(p, candles, signal.side, signal.index + 1))
  }

  method SimulateTrade(candles: seq<Candle>, signal: Signal, ps: Params) returns (r: Result<Trade, string>)
    ensures r == TradeOf(candles, signal, ps)
  {
    var entry := EntryPrice(candles, signal, ps.slippagePct);
    if entry.Err? { return Err(entry.error); }
    if entry.value <= 0.0 { return Err("invalid_entry_price"); }
    var atr := ComputeAtr(candles, signal.index, ps.atrPeriod);
    var t;
    ghost var fills;
    if signal.side == Sell {
      t, fills := SimulateShortTrade(candles, signal.index + 1, entry.value, atr, ps.stopMult, ps.tpMult, ps.trailMult);
    } else {
      t, fills := SimulateLongTrade(candles, signal.index + 1, entry.value, atr, ps.stopMult, ps.tpMult, ps.trailMult);
    }
    r := Ok(t);
  }

  method ComputeAtr(candles: seq<Candle>, signalIndex: nat, atrPeriod: int) returns (atr: real)
    ensures atr == AtrAt(candles, signalIndex, atrPeriod) >= 0.000000001
  {
    var w := AtrWindow(candles, signalIndex, atrPeriod);
    if w == [] { return 1.0; }
    var r := Risk.ComputeAtr(Highs(w), Lows(w), Closes(w));
    atr := Max(r.value, 0.000000001);
  }
}
