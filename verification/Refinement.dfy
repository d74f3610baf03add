/** The backtest simulator and the live exit machine, fed the same prices, walk through the same states. */
module Refinement {
  import opened Prelude
  import opened Domain
  import BT = BacktestTrade
  import opened StateMachine
  import opened LoopA
  import Risk

  /** A candle on which nothing moves. */
  function FlatCandle(price: real): Candle {
    Candle(price, price, price, price, 0, 0.0)
  }

  function Flat(prices: seq<real>): (cs: seq<Candle>)
    ensures |cs| == |prices| && forall i :: 0 <= i < |cs| ==> cs[i] == FlatCandle(prices[i])
  {
    seq(|prices|, i requires 0 <= i < |prices| => FlatCandle(prices[i]))
  }

  /** The live loop on the same prices: a constant trailing distance, every order filled, no storage fault. */
  function Ticks(prices: seq<real>, trail: real): (ks: seq<Tick>)
    ensures |ks| == |prices| && forall i :: 0 <= i < |ks| ==> ks[i] == Tick(prices[i], trail, true, NoFault, i)
  {
    seq(|prices|, i requires 0 <= i < |prices| => Tick(prices[i], trail, true, NoFault, i))
  }

  /** The position the live system opens for a plan: stop and target as build_stop_take_profit sets them. */
  function LivePosition(p: BT.Plan, quantity: real): Position {
    Opened("T", p.entry, p.LongStop(), p.LongTarget(), quantity)
  }

  /** The plan's levels are the shared stop and target formula. */
  lemma SharedLevels(entry: real, atr: real, stopMult: real, tpMult: real, trailMult: real)
    ensures var p := BT.PlanFrom(entry, atr, stopMult, tpMult, trailMult);
      (p.LongStop(), p.LongTarget()) == Risk.BuildStopTakeProfit(entry, atr, stopMult, tpMult)
  {
  }

  /**
   Simulator and live row agree: state, remaining fraction, close reason and stored high; the simulator's trailing
   stop is the live one clamped at zero, and the price it leaves at is the live stop itself.
   */
  ghost predicate Agree(p: BT.Plan, cs: seq<Candle>, n: nat, e: BT.Exit, row: Position, q: real)
    requires n <= |cs|
  {
    match e
    case Untouched => row.state == Open && row.remaining == q && row.closeReason == None
    case Half(i) =>
      && row.state == HalfClosed && row.remaining == q / 2.0 && row.closeReason == None
      && i < n && row.highest == Some(BT.HighSince(p, cs, i, n - 1))
      && row.trailing == Some(BT.HighSince(p, cs, i, n - 1) - p.trail)
      && BT.LongTrailStop(p, cs, i, n - 1) == Max(row.trailing.value, 0.0)
    case Stopped(_) => row.state == Closed && row.remaining == 0.0 && row.closeReason == Some(StopLoss)
    case Trailed(i, j) =>
      && row.state == Closed && row.remaining == 0.0 && row.closeReason == Some(TrailingStop)
      && i <= j < n && row.trailing == Some(BT.LongTrailStop(p, cs, i, j))
  }

  /** While half closed the two stops can differ: the simulator's is 0, the live one -90. */
  lemma StopsDifferBelowZero() returns (p: BT.Plan, prices: seq<real>)
    ensures p.trail > 0.0 && prices == [110.0]
    ensures BT.LongExit(p, Flat(prices), 0, 1) == BT.Half(0) && BT.LongTrailStop(p, Flat(prices), 0, 0) == 0.0
    ensures Run(LivePosition(p, 1.0), Ticks(prices, p.trail), 1).pos.trailing == Some(-90.0)
  {
    p, prices := BT.Plan(100.0, 10.0, 10.0, 200.0), [110.0];
    assert BT.LongExit(p, Flat(prices), 0, 0) == BT.Untouched;
    assert Flat(prices)[0] == FlatCandle(110.0);
    assert Run(LivePosition(p, 1.0), Ticks(prices, p.trail), 0) == Start(LivePosition(p, 1.0));
    assert Ticks(prices, p.trail)[0] == Tick(110.0, p.trail, true, NoFault, 0);
  }

  lemma {:induction false} HighSincePositive(p: BT.Plan, cs: seq<Candle>, i: nat, k: nat)
    requires i <= k < |cs| && forall m :: 0 <= m < |cs| ==> cs[m].high > 0.0
    ensures BT.HighSince(p, cs, i, k) > 0.0
  {
    if i < k { HighSincePositive(p, cs, i, k - 1); }
  }

  /** One price: if both sides agreed before it, they agree after it. */
  lemma StepAgrees(p: BT.Plan, cs: seq<Candle>, n: nat, e: BT.Exit, l: Ledger, k: Tick, q: real)
    requires n < |cs| && q > 0.0 && p.trail > 0.0
    requires cs[n] == FlatCandle(k.price) && k.price > 0.0 && k.trail == p.trail && k.filled && k.fault == NoFault
    requires e.Half? ==> e.bar < n && BT.HighSince(p, cs, e.bar, n - 1) > 0.0
    requires Agree(p, cs, n, e, l.pos, q) && l.pos.stop == p.LongStop() && l.pos.takeProfit == p.LongTarget()
    ensures Agree(p, cs, n + 1, BT.LongStep(p, cs, e, n), Visit(l, k).pos, q)
    ensures Visit(l, k).pos.stop == l.pos.stop && Visit(l, k).pos.takeProfit == l.pos.takeProfit
  {
  }

  /**
   For every sequence of positive prices and a positive trailing distance: after each price the live
   position and the simulator on flat candles are in the same state, with the same remaining fraction,
   the same close reason and the same stored high, and trailing stops that differ by the clamp at zero only.
   */
  lemma {:induction false} BacktestRefinesLive(p: BT.Plan, prices: seq<real>, n: nat, q: real)
    requires n <= |prices| && q > 0.0 && p.trail > 0.0
    requires forall i :: 0 <= i < |prices| ==> prices[i] > 0.0
    ensures var row := Run(LivePosition(p, q), Ticks(prices, p.trail), n).pos;
      && Agree(p, Flat(prices), n, BT.LongExit(p, Flat(prices), 0, n), row, q)
      && row.stop == p.LongStop() && row.takeProfit == p.LongTarget()
  {
    if n > 0 {
      BacktestRefinesLive(p, prices, n - 1, q);
      var cs, ks := Flat(prices), Ticks(prices, p.trail);
      var e := BT.LongExit(p, cs, 0, n - 1);
      if e.Half? { HighSincePositive(p, cs, e.bar, n - 2); }
      StepAgrees(p, cs, n - 1, e, Run(LivePosition(p, q), ks, n - 1), ks[n - 1], q);
    }
  }

  /** The reason the simulator reports is the reason the live position closed with; no close means end of data. */
  lemma SameReason(p: BT.Plan, prices: seq<real>, q: real)
    requires prices != [] && q > 0.0 && p.trail > 0.0
    requires forall i :: 0 <= i < |prices| ==> prices[i] > 0.0
    ensures var row, t := Run(LivePosition(p, q), Ticks(prices, p.trail), |prices|).pos, BT.LongTrade(p, Flat(prices), 0);
      && (t.reason == BT.StopLoss <==> row.state == Closed && row.closeReason == Some(StopLoss))
      && (t.reason == BT.TrailingStop <==> row.state == Closed && row.closeReason == Some(TrailingStop))
      && (t.reason == BT.EndOfData <==> row.state != Closed)
  {
    BacktestRefinesLive(p, prices, |prices|, q);
  }

  /** The same end to end: a position opened with the shared stop and target formula closes as its backtest says. */
  lemma LivePositionClosesAsBacktested(entry: real, atr: real, stopMult: real, tpMult: real, trailMult: real,
                                       prices: seq<real>, q: real, opened_: Position)
    requires prices != [] && q > 0.0 && atr * trailMult > 0.0
    requires forall i :: 0 <= i < |prices| ==> prices[i] > 0.0
    requires var (stop, target) := Risk.BuildStopTakeProfit(entry, atr, stopMult, tpMult);
      opened_ == Opened("T", entry, stop, target, q)
    ensures var row := Run(opened_, Ticks(prices, atr * trailMult), |prices|).pos;
      var t := BT.LongTrade(BT.PlanFrom(entry, atr, stopMult, tpMult, trailMult), Flat(prices), 0);
      && (t.reason == BT.StopLoss <==> row.state == Closed && row.closeReason == Some(StopLoss))
      && (t.reason == BT.TrailingStop <==> row.state == Closed && row.closeReason == Some(TrailingStop))
      && (t.reason == BT.EndOfData <==> row.state != Closed)
  {
    SharedLevels(entry, atr, stopMult, tpMult, trailMult);
    SameReason(BT.PlanFrom(entry, atr, stopMult, tpMult, trailMult), prices, q);
  }

  /** Both sides agree at the end of every sequence of positive prices. */
  ghost predicate AlwaysAgree(p: BT.Plan, q: real) {
    forall prices: seq<real> :: (forall i :: 0 <= i < |prices| ==> prices[i] > 0.0) ==> AgreeOn(p, prices, q)
  }

  ghost predicate AgreeOn(p: BT.Plan, prices: seq<real>, q: real) {
    Agree(p, Flat(prices), |prices|, BT.LongExit(p, Flat(prices), 0, |prices|),
          Run(LivePosition(p, q), Ticks(prices, p.trail), |prices|).pos, q)
  }

  /**
   A positive trailing distance is exactly what the agreement needs: with a distance of zero or less the
   simulator leaves on the bar that takes the half, while the live machine waits for the next price.
   */
  lemma AgreementNeedsPositiveTrail(p: BT.Plan, q: real)
    requires q > 0.0
    ensures AlwaysAgree(p, q) <==> p.trail > 0.0
  {
    if p.trail > 0.0 {
      forall prices: seq<real> | forall i :: 0 <= i < |prices| ==> prices[i] > 0.0 ensures AgreeOn(p, prices, q) {
        BacktestRefinesLive(p, prices, |prices|, q);
      }
    } else {
      var x := Max(p.LongStop(), p.LongTarget()) + 1.0;
      DisagreeOnTake(p, x, q);
      assert !AgreeOn(p, [x], q);
    }
  }

  lemma DisagreeOnTake(p: BT.Plan, x: real, q: real)
    requires q > 0.0 && p.trail <= 0.0 && x > 0.0 && x > p.LongStop() && x >= p.LongTarget()
    ensures BT.LongExit(p, Flat([x]), 0, 1) == BT.Trailed(0, 0)
    ensures Run(LivePosition(p, q), Ticks([x], p.trail), 1).pos.state == HalfClosed
  {
    assert BT.LongExit(p, Flat([x]), 0, 0) == BT.Untouched;
    assert Flat([x])[0] == FlatCandle(x);
    assert Run(LivePosition(p, q), Ticks([x], p.trail), 0) == Start(LivePosition(p, q));
    assert Ticks([x], p.trail)[0] == Tick(x, p.trail, true, NoFault, 0);
  }
}
