/** What one backtest job reports about the trades it simulated (app/services/backtest_jobs.py). */
module JobReport {
  import opened Prelude
  import opened Domain
  import opened BacktestTrade
  import opened BacktestRun
  import Drawdown

  datatype Report = Report(tradeCount: nat, wins: nat, losses: nat, skipped: nat, winRate: real,
                           totalPnl: real, avgPnl: real, totalReturn: real, mdd: real,
                           grossProfit: real, grossLoss: real, profitFactor: Option<real>,
                           reasons: map<Reason, nat>)

  /** The trades of the first n signals, in order; a signal that cannot be simulated is skipped. */
  function Trades(candles: seq<Candle>, signals: seq<Signal>, ps: Params, n: nat): seq<Trade>
    requires n <= |signals|
  {
    if n == 0 then []
    else
      var earlier := Trades(candles, signals, ps, n - 1);
      match TradeOf(candles, signals[n - 1], ps)
      case Ok(t) => earlier + [t]
      case Err(_) => earlier
  }

  function Pnls(ts: seq<Trade>): (r: seq<real>)
    ensures |r| == |ts| && forall i :: 0 <= i < |ts| ==> r[i] == ts[i].pnl
  {
    seq(|ts|, i requires 0 <= i < |ts| => ts[i].pnl)
  }

  function Returns(ts: seq<Trade>): (r: seq<real>)
    ensures |r| == |ts| && forall i :: 0 <= i < |ts| ==> r[i] == ts[i].ret
  {
    seq(|ts|, i requires 0 <= i < |ts| => ts[i].ret)
  }

  predicate Gain(x: real) { x > 0.0 }
  predicate Loss(x: real) { x < 0.0 }
  predicate Even(x: real) { x == 0.0 }

  /** The elements that satisfy keep, in order. */
  function Where(xs: seq<real>, keep: real -> bool): seq<real> {
    if xs == [] then []
    else
      var x := xs[|xs| - 1];
      Where(xs[..|xs| - 1], keep) + if keep(x) then [x] else []
  }

  function CountReason(ts: seq<Trade>, r: Reason): nat {
    if ts == [] then 0
    else CountReason(ts[..|ts| - 1], r) + if ts[|ts| - 1].reason == r then 1 else 0
  }

  ghost predicate Tallies(reasons: map<Reason, nat>, ts: seq<Trade>) {
    forall r :: (r in reasons <==> CountReason(ts, r) > 0) && (r in reasons ==> reasons[r] == CountReason(ts, r))
  }

  function Tally(reasons: map<Reason, nat>, r: Reason): nat {
    if r in reasons then reasons[r] else 0
  }

  /** r is the report of the trades ts, drawn from `total` signals. */
  ghost predicate IsReport(r: Report, ts: seq<Trade>, total: nat) {
    && r.tradeCount == |ts| && r.tradeCount + r.skipped == total
    && r.wins == |Where(Pnls(ts), Gain)| && r.losses == |Where(Pnls(ts), Loss)|
    && r.totalPnl == Sum(Pnls(ts)) && r.totalReturn == Sum(Returns(ts))
    && r.grossProfit == Sum(Where(Pnls(ts), Gain)) && r.grossLoss == Abs(Sum(Where(Pnls(ts), Loss)))
    && (r.tradeCount == 0 ==> r.avgPnl == 0.0 && r.winRate == 0.0)
    && (r.tradeCount > 0 ==> r.avgPnl == r.totalPnl / |ts| as real && r.winRate == r.wins as real / |ts| as real)
    && (r.profitFactor.None? <==> r.grossLoss <= 0.0)
    && (r.profitFactor.Some? ==> r.profitFactor.value == r.grossProfit / r.grossLoss)
    && Drawdown.IsMaxDrawdown(Returns(ts), |ts|, r.mdd)
    && Tallies(r.reasons, ts)
  }

  lemma AddTrade(ts: seq<Trade>, t: Trade)
    ensures Pnls(ts + [t]) == Pnls(ts) + [t.pnl] && Returns(ts + [t]) == Returns(ts) + [t.ret]
    ensures forall keep :: Where(Pnls(ts + [t]), keep) == Where(Pnls(ts), keep) + if keep(t.pnl) then [t.pnl] else []
    ensures forall r :: CountReason(ts + [t], r) == CountReason(ts, r) + if t.reason == r then 1 else 0
  {
    assert (ts + [t])[..|ts|] == ts;
    assert Pnls(ts + [t])[..|ts|] == Pnls(ts);
  }

  lemma AddReason(reasons: map<Reason, nat>, ts: seq<Trade>, t: Trade)
    requires Tallies(reasons, ts)
    ensures Tallies(reasons[t.reason := Tally(reasons, t.reason) + 1], ts + [t])
  {
    AddTrade(ts, t);
  }

  /** The accumulators of the loop over the signals, after the trades ts. */
  datatype Totals = Totals(pnls: seq<real>, rets: seq<real>, reasons: map<Reason, nat>, wins: nat, losses: nat)
  {
    ghost predicate Of(ts: seq<Trade>) {
      && pnls == Pnls(ts) && rets == Returns(ts) && Tallies(reasons, ts)
      && wins == |Where(pnls, Gain)| && losses == |Where(pnls, Loss)|
    }
  }

  /** Books one trade into the accumulators. */
  method Book(was: Totals, t: Trade, ghost ts: seq<Trade>) returns (now: Totals)
    requires was.Of(ts)
    ensures now.Of(ts + [t])
  {
    AddTrade(ts, t);
    AddReason(was.reasons, ts, t);
    var reasons := was.reasons[t.reason := Tally(was.reasons, t.reason) + 1];
    var wins, losses := was.wins, was.losses;
    if t.pnl > 0.0 { wins := wins + 1; }
    else if t.pnl < 0.0 { losses := losses + 1; }
    now := Totals(was.pnls + [t.pnl], was.rets + [t.ret], reasons, wins, losses);
  }

  /** The accumulators after the first n signals. */
  ghost predicate Upto(acc: Totals, skipped: nat, candles: seq<Candle>, signals: seq<Signal>, ps: Params, n: nat) {
    n <= |signals| && acc.Of(Trades(candles, signals, ps, n)) && |Trades(candles, signals, ps, n)| + skipped == n
  }

  /** Simulates signal n; one that cannot be simulated is counted as skipped. */
  method SimulateNext(was: Totals, skipped: nat, candles: seq<Candle>, signals: seq<Signal>, ps: Params, n: nat)
    returns (now: Totals, skippedNow: nat)
    requires n < |signals| && Upto(was, skipped, candles, signals, ps, n)
    ensures Upto(now, skippedNow, candles, signals, ps, n + 1)
  {
    var r := SimulateTrade(candles, signals[n], ps);
    match r
    case Err(_) => return was, skipped + 1;
    case Ok(t) =>
      now := Book(was, t, Trades(candles, signals, ps, n));
      skippedNow := skipped;
  }

  /** The report of a finished job. */
  method Summarize(acc: Totals, skipped: nat, ghost ts: seq<Trade>) returns (report: Report)
    requires acc.Of(ts)
    ensures IsReport(report, ts, |ts| + skipped)
  {
    var tradeCount := |acc.pnls|;
    var totalPnl := Sum(acc.pnls);
    var avgPnl := if tradeCount > 0 then totalPnl / tradeCount as real else 0.0;
    var winRate := if tradeCount > 0 then acc.wins as real / tradeCount as real else 0.0;
    var grossProfit, grossLoss := Sum(Where(acc.pnls, Gain)), Abs(Sum(Where(acc.pnls, Loss)));
    var profitFactor := if grossLoss > 0.0 then Some(grossProfit / grossLoss) else None;
    var mdd := Drawdown.MaxDrawdown(acc.rets);
    report := Report(tradeCount, acc.wins, acc.losses, skipped, winRate, totalPnl, avgPnl, Sum(acc.rets), mdd,
                     grossProfit, grossLoss, profitFactor, acc.reasons);
  }

  /** Gains, losses and break-even trades are all the trades. */
  lemma {:induction false} SplitCounts(xs: seq<real>)
    ensures |Where(xs, Gain)| + |Where(xs, Loss)| + |Where(xs, Even)| == |xs|
  {
    if xs != [] { SplitCounts(xs[..|xs| - 1]); }
  }

  /** There is no loss exactly when no trade lost. */
  lemma {:induction false} NoLosses(xs: seq<real>)
    ensures |Where(xs, Loss)| == 0 <==> forall i :: 0 <= i < |xs| ==> xs[i] >= 0.0
  {
    if xs != [] {
      var front := xs[..|xs| - 1];
      NoLosses(front);
      assert forall i :: 0 <= i < |front| ==> xs[i] == front[i];
    }
  }

  /** Gains and losses add up to the total, and a loss shows in the sum exactly when there is one. */
  lemma {:induction false} SplitByGain(xs: seq<real>)
    ensures Sum(Where(xs, Gain)) + Sum(Where(xs, Loss)) == Sum(xs)
    ensures Sum(Where(xs, Gain)) >= 0.0 >= Sum(Where(xs, Loss))
    ensures Sum(Where(xs, Loss)) == 0.0 <==> |Where(xs, Loss)| == 0
  {
    if xs != [] {
      var front, x := xs[..|xs| - 1], xs[|xs| - 1];
      SplitByGain(front);
      SumWhere(front, x, Gain);
      SumWhere(front, x, Loss);
      assert xs == front + [x];
    }
  }

  lemma SumWhere(front: seq<real>, x: real, keep: real -> bool)
    ensures Where(front + [x], keep) == if keep(x) then Where(front, keep) + [x] else Where(front, keep)
    ensures Sum(Where(front + [x], keep)) == Sum(Where(front, keep)) + if keep(x) then x else 0.0
  {
    assert (front + [x])[..|front|] == front;
    SumSnoc(Where(front, keep), x);
  }

  lemma {:induction false} ReasonsPartition(ts: seq<Trade>)
    ensures CountReason(ts, StopLoss) + CountReason(ts, TrailingStop) + CountReason(ts, EndOfData) == |ts|
  {
    if ts != [] { ReasonsPartition(ts[..|ts| - 1]); }
  }

  /** The money balances: gains and losses make up the total, and the factor tells which side won. */
  lemma MoneyBalances(r: Report, ts: seq<Trade>, total: nat)
    requires IsReport(r, ts, total)
    ensures r.grossProfit - r.grossLoss == r.totalPnl
    ensures r.grossProfit >= 0.0 && r.grossLoss >= 0.0
    ensures r.profitFactor.Some? ==> (r.profitFactor.value > 1.0 <==> r.totalPnl > 0.0)
  {
    SplitByGain(Pnls(ts));
    if r.profitFactor.Some? { AboveOne(r.grossProfit, r.grossLoss); }
  }

  lemma FractionOf(a: nat, b: nat)
    requires a <= b && b > 0
    ensures 0.0 <= a as real / b as real <= 1.0
  {
    DivMono(0.0, a as real, b as real);
    DivMono(a as real, b as real, b as real);
  }

  /** Every signal and every trade is counted once. */
  lemma CountsBalance(r: Report, ts: seq<Trade>, total: nat)
    requires IsReport(r, ts, total)
    ensures r.wins + r.losses + |Where(Pnls(ts), Even)| == r.tradeCount == total - r.skipped && 0.0 <= r.winRate <= 1.0
    ensures Tally(r.reasons, StopLoss) + Tally(r.reasons, TrailingStop) + Tally(r.reasons, EndOfData) == r.tradeCount
  {
    SplitCounts(Pnls(ts));
    ReasonsPartition(ts);
    assert forall q :: Tally(r.reasons, q) == CountReason(ts, q);
    if |ts| > 0 { FractionOf(r.wins, |ts|); }
  }

  lemma AboveOne(a: real, b: real)
    requires b > 0.0
    ensures a / b > 1.0 <==> a - b > 0.0
  {
    assert a == (a / b) * b;
    if a / b > 1.0 { MulStrict(b, 1.0, a / b); } else { MulMono(b, a / b, 1.0); }
  }

  /** What simulating each of the first n signals came to. */
  function Results(candles: seq<Candle>, signals: seq<Signal>, ps: Params, n: nat): (rs: seq<Result<Trade, string>>)
    requires n <= |signals|
    ensures |rs| == n && forall i :: 0 <= i < n ==> rs[i] == TradeOf(candles, signals[i], ps)
  {
    seq(n, i requires 0 <= i < n && n <= |signals| => TradeOf(candles, signals[i], ps))
  }

  function OkCount<T>(rs: seq<Result<T, string>>): nat {
    if rs == [] then 0 else OkCount(rs[..|rs| - 1]) + if rs[|rs| - 1].Ok? then 1 else 0
  }

  /** ts holds the value of every success in order, and nothing else. */
  ghost predicate AreSuccesses<T>(ts: seq<T>, rs: seq<Result<T, string>>) {
    && |ts| == OkCount(rs)
    && forall i :: 0 <= i < |rs| && rs[i].Ok? ==> OkCount(rs[..i]) < |ts| && ts[OkCount(rs[..i])] == rs[i].value
  }

  lemma OneMoreResult<T>(ts: seq<T>, rs: seq<Result<T, string>>, r: Result<T, string>)
    requires AreSuccesses(ts, rs)
    ensures AreSuccesses(if r.Ok? then ts + [r.value] else ts, rs + [r])
  {
    var rs' := rs + [r];
    assert rs'[..|rs|] == rs;
    forall i | 0 <= i < |rs'| ensures rs'[..i] == if i < |rs| then rs[..i] else rs {
    }
  }

  /** The trade of every signal that can be simulated is reported, in signal order, and nothing else. */
  lemma {:induction false} EverySignalIsReported(candles: seq<Candle>, signals: seq<Signal>, ps: Params, n: nat)
    requires n <= |signals|
    ensures AreSuccesses(Trades(candles, signals, ps, n), Results(candles, signals, ps, n))
  {
    if n > 0 {
      EverySignalIsReported(candles, signals, ps, n - 1);
      var r := Results(candles, signals, ps, n)[n - 1];
      assert Results(candles, signals, ps, n) == Results(candles, signals, ps, n - 1) + [r];
      OneMoreResult(Trades(candles, signals, ps, n - 1), Results(candles, signals, ps, n - 1), r);
    }
  }

  lemma {:induction false} TradesKeepSign(candles: seq<Candle>, signals: seq<Signal>, ps: Params, n: nat, i: nat)
    requires n <= |signals| && i < |Trades(candles, signals, ps, n)|
    ensures var t := Trades(candles, signals, ps, n)[i]; t.ret >= 0.0 <==> t.pnl >= 0.0
  {
    if i < |Trades(candles, signals, ps, n - 1)| {
      TradesKeepSign(candles, signals, ps, n - 1, i);
    } else {
      var entry := EntryPrice(candles, signals[n - 1], ps.slippagePct).value;
      SignOfReturn(Trades(candles, signals, ps, n)[i].pnl, entry);
    }
  }

  lemma SignOfReturn(pnl: real, entry: real)
    requires entry > 0.0
    ensures pnl / entry >= 0.0 <==> pnl >= 0.0
  {
    assert pnl == (pnl / entry) * entry;
    if pnl / entry < 0.0 { MulStrict(entry, pnl / entry, 0.0); } else { MulMono(entry, 0.0, pnl / entry); }
  }

  /** Three figures that are computed apart agree on whether the job ever lost money. */
  lemma LosslessJob(candles: seq<Candle>, signals: seq<Signal>, ps: Params, r: Report)
    requires IsReport(r, Trades(candles, signals, ps, |signals|), |signals|)
    ensures r.losses == 0 <==> r.mdd == 0.0
    ensures r.losses == 0 <==> r.profitFactor.None?
  {
    var ts := Trades(candles, signals, ps, |signals|);
    SplitByGain(Pnls(ts));
    NoLosses(Pnls(ts));
    Drawdown.DrawdownZero(Returns(ts), r.mdd);
    forall i | 0 <= i < |ts| ensures Returns(ts)[i] >= 0.0 <==> Pnls(ts)[i] >= 0.0 {
      TradesKeepSign(candles, signals, ps, |signals|, i);
    }
  }
}
