/** What a simulated trade means: when it leaves, that it never looks ahead, its loss floor and its mirror image. */
module BacktestProperties {
  import opened Prelude
  import opened Domain
  import opened BacktestTrade
  import opened BacktestRun

  /* ---- When a trade leaves ---- */

  /** No bar in from..n touches the stop or the target of a long. */
  ghost predicate LongQuiet(p: Plan, cs: seq<Candle>, from: nat, n: nat)
    requires n <= |cs|
  {
    forall k :: from <= k < n ==> cs[k].low > p.LongStop() && cs[k].high < p.LongTarget()
  }

  /** After the half taken at bar i, no bar up to n reaches the trailing stop standing at that bar. */
  ghost predicate LongHolds(p: Plan, cs: seq<Candle>, i: nat, n: nat)
    requires n <= |cs|
  {
    forall k :: i <= k < n ==> cs[k].low > LongTrailStop(p, cs, i, k)
  }

  /** The exit of a long told without a loop: first touch, stop before target, then first trailing touch. */
  ghost predicate IsLongExit(p: Plan, cs: seq<Candle>, from: nat, n: nat, e: Exit)
    requires n <= |cs|
  {
    match e
    case Untouched => LongQuiet(p, cs, from, n)
    case Stopped(i) => from <= i < n && LongQuiet(p, cs, from, i) && cs[i].low <= p.LongStop()
    case Half(i) => from <= i < n && LongTakes(p, cs, from, i) && LongHolds(p, cs, i, n)
    case Trailed(i, j) =>
      from <= i <= j < n && LongTakes(p, cs, from, i) && LongHolds(p, cs, i, j) && cs[j].low <= LongTrailStop(p, cs, i, j)
  }

  ghost predicate LongTakes(p: Plan, cs: seq<Candle>, from: nat, i: nat)
    requires i < |cs|
  {
    LongQuiet(p, cs, from, i) && cs[i].low > p.LongStop() && cs[i].high >= p.LongTarget()
  }

  /** The bar-by-bar simulator leaves at e exactly when e is the first touch described above. */
  lemma {:induction false} LongExitMeaning(p: Plan, cs: seq<Candle>, from: nat, n: nat, e: Exit)
    requires n <= |cs|
    ensures IsLongExit(p, cs, from, n, e) <==> e == LongExit(p, cs, from, n)
  {
    LongExitSound(p, cs, from, n);
    if IsLongExit(p, cs, from, n, e) { LongExitUnique(p, cs, from, n, e, LongExit(p, cs, from, n)); }
  }

  lemma {:induction false} LongExitSound(p: Plan, cs: seq<Candle>, from: nat, n: nat)
    requires n <= |cs|
    ensures IsLongExit(p, cs, from, n, LongExit(p, cs, from, n))
  {
    if from < n { LongExitSound(p, cs, from, n - 1); }
  }

  lemma LongExitUnique(p: Plan, cs: seq<Candle>, from: nat, n: nat, e: Exit, e': Exit)
    requires n <= |cs| && IsLongExit(p, cs, from, n, e) && IsLongExit(p, cs, from, n, e')
    ensures e == e'
  {
  }

  /** With a positive target or positive highs, the tracked high is the maximum of the target and all highs since the half. */
  lemma {:induction false} HighSinceIsMaximum(p: Plan, cs: seq<Candle>, i: nat, k: nat)
    requires i <= k < |cs| && (p.LongTarget() > 0.0 || forall m :: i <= m <= k ==> cs[m].high > 0.0)
    ensures HighSince(p, cs, i, k) >= p.LongTarget() && HighSince(p, cs, i, k) > 0.0
    ensures forall m :: i <= m <= k ==> cs[m].high <= HighSince(p, cs, i, k)
    ensures HighSince(p, cs, i, k) == p.LongTarget() || exists m :: i <= m <= k && cs[m].high == HighSince(p, cs, i, k)
  {
    if i < k { HighSinceIsMaximum(p, cs, i, k - 1); }
  }

  /** With positive lows, the tracked low is the minimum of the target and all lows since the half. */
  lemma {:induction false} LowSinceIsMinimum(p: Plan, cs: seq<Candle>, i: nat, k: nat)
    requires i <= k < |cs| && cs[i].low <= p.ShortTarget()
    requires forall m :: i <= m <= k ==> cs[m].low > 0.0
    ensures 0.0 < LowSince(p, cs, i, k) <= p.ShortTarget()
    ensures forall m :: i <= m <= k ==> LowSince(p, cs, i, k) <= cs[m].low
    ensures exists m :: i <= m <= k && cs[m].low == LowSince(p, cs, i, k)
  {
    if i < k { LowSinceIsMinimum(p, cs, i, k - 1); }
  }

  /** Once the half is taken, the tracked low is zero exactly on bars that trade at zero: any later bar erases it. */
  lemma {:induction false} LowSinceZero(p: Plan, cs: seq<Candle>, i: nat, k: nat)
    requires i <= k < |cs| && cs[i].low <= p.ShortTarget() && forall m :: i <= m <= k ==> cs[m].low >= 0.0
    ensures LowSince(p, cs, i, k) >= 0.0 && (LowSince(p, cs, i, k) == 0.0 <==> cs[k].low == 0.0)
  {
    if i < k { LowSinceZero(p, cs, i, k - 1); }
  }

  /** Bar k moves the short trailing stop away from the market. */
  ghost predicate Loosens(p: Plan, cs: seq<Candle>, i: nat, k: nat)
    requires i < k < |cs|
  {
    ShortTrailStop(p, cs, i, k) > ShortTrailStop(p, cs, i, k - 1)
  }

  /** After the half taken at bar i the short trailing stop never loosens exactly when no bar at zero is followed by one above. */
  lemma ShortTrailNeverLoosens(p: Plan, cs: seq<Candle>, i: nat, n: nat)
    requires i < n <= |cs| && cs[i].low <= p.ShortTarget() && forall m :: i <= m < n ==> cs[m].low >= 0.0
    ensures (forall k :: i < k < n ==> !Loosens(p, cs, i, k))
            <==> forall k :: i < k < n ==> !(cs[k - 1].low == 0.0 && cs[k].low > 0.0)
  {
    forall k | i < k < n ensures Loosens(p, cs, i, k) <==> cs[k - 1].low == 0.0 && cs[k].low > 0.0 {
      LowSinceZero(p, cs, i, k - 1);
    }
  }

  /** It does happen: a bar that trades at zero erases the tracked low, and the stop moves away from 1 to 6. */
  lemma ShortTrailLoosensAtZero() returns (p: Plan, cs: seq<Candle>)
    ensures |cs| == 2 && AllWellFormed(cs) && ShortExit(p, cs, 0, 1) == Half(0)
    ensures ShortTrailStop(p, cs, 0, 0) == 1.0 && ShortTrailStop(p, cs, 0, 1) == 6.0
  {
    p := Plan(3.0, 4.0, 2.0, 1.0);
    cs := [Candle(0.5, 0.5, 0.0, 0.5, 0, 0.0), Candle(5.0, 5.0, 5.0, 5.0, 1, 0.0)];
    assert LowSince(p, cs, 0, 0) == 0.0;
    assert ShortExit(p, cs, 0, 0) == Untouched;
  }

  /* ---- No look-ahead ---- */

  lemma {:induction false} HighSincePrefix(p: Plan, cs: seq<Candle>, cs': seq<Candle>, i: nat, k: nat)
    requires i <= k < |cs| && k < |cs'| && cs[..k + 1] == cs'[..k + 1]
    ensures HighSince(p, cs, i, k) == HighSince(p, cs', i, k)
    ensures LowSince(p, cs, i, k) == LowSince(p, cs', i, k)
  {
    assert cs[k] == cs[..k + 1][k] == cs'[k];
    if i < k {
      assert cs[..k] == cs[..k + 1][..k] == cs'[..k];
      HighSincePrefix(p, cs, cs', i, k - 1);
    }
  }

  lemma StepPrefix(p: Plan, cs: seq<Candle>, cs': seq<Candle>, e: Exit, k: nat)
    requires k < |cs| && k < |cs'| && cs[..k + 1] == cs'[..k + 1] && (e.Half? ==> e.bar <= k)
    ensures LongStep(p, cs, e, k) == LongStep(p, cs', e, k)
    ensures ShortStep(p, cs, e, k) == ShortStep(p, cs', e, k)
  {
    assert cs[k] == cs[..k + 1][k] == cs'[k];
    HighSincePrefix(p, cs, cs', if e.Half? then e.bar else k, k);
  }

  lemma {:induction false} ExitPrefix(p: Plan, cs: seq<Candle>, cs': seq<Candle>, from: nat, n: nat)
    requires n <= |cs| && n <= |cs'| && cs[..n] == cs'[..n]
    ensures LongExit(p, cs, from, n) == LongExit(p, cs', from, n)
    ensures ShortExit(p, cs, from, n) == ShortExit(p, cs', from, n)
  {
    if from < n {
      assert cs[..n - 1] == cs[..n][..n - 1] == cs'[..n - 1];
      ExitPrefix(p, cs, cs', from, n - 1);
      StepPrefix(p, cs, cs', LongExit(p, cs, from, n - 1), n - 1);
      StepPrefix(p, cs, cs', ShortExit(p, cs, from, n - 1), n - 1);
    }
  }

  /** The bar at which a trade that left has left. */
  function LastBar(e: Exit): nat
    requires e.Stopped? || e.Trailed?
  {
    if e.Stopped? then e.bar else e.last
  }

  lemma {:induction false} LongLeftAt(p: Plan, cs: seq<Candle>, from: nat, n: nat)
    requires n <= |cs| && (LongExit(p, cs, from, n).Stopped? || LongExit(p, cs, from, n).Trailed?)
    ensures LongExit(p, cs, from, LastBar(LongExit(p, cs, from, n)) + 1) == LongExit(p, cs, from, n)
  {
    if LastBar(LongExit(p, cs, from, n)) + 1 < n { LongLeftAt(p, cs, from, n - 1); }
  }

  lemma {:induction false} ShortLeftAt(p: Plan, cs: seq<Candle>, from: nat, n: nat)
    requires n <= |cs| && (ShortExit(p, cs, from, n).Stopped? || ShortExit(p, cs, from, n).Trailed?)
    ensures ShortExit(p, cs, from, LastBar(ShortExit(p, cs, from, n)) + 1) == ShortExit(p, cs, from, n)
  {
    if LastBar(ShortExit(p, cs, from, n)) + 1 < n { ShortLeftAt(p, cs, from, n - 1); }
  }

  lemma LongExitSettled(p: Plan, cs: seq<Candle>, cs': seq<Candle>, from: nat, m: nat)
    requires m <= |cs| && m <= |cs'| && cs[..m] == cs'[..m]
    requires LongExit(p, cs, from, m).Stopped? || LongExit(p, cs, from, m).Trailed?
    ensures LongExit(p, cs', from, |cs'|) == LongExit(p, cs, from, m)
  {
    ExitPrefix(p, cs, cs', from, m);
    LongExitStays(p, cs', from, m, |cs'|);
  }

  lemma ShortExitSettled(p: Plan, cs: seq<Candle>, cs': seq<Candle>, from: nat, m: nat)
    requires m <= |cs| && m <= |cs'| && cs[..m] == cs'[..m]
    requires ShortExit(p, cs, from, m).Stopped? || ShortExit(p, cs, from, m).Trailed?
    ensures ShortExit(p, cs', from, |cs'|) == ShortExit(p, cs, from, m)
  {
    ExitPrefix(p, cs, cs', from, m);
    ShortExitStays(p, cs', from, m, |cs'|);
  }

  /** The profit of a trade that left is a matter of the bars up to where it left. */
  lemma PnlSettled(p: Plan, cs: seq<Candle>, cs': seq<Candle>, e: Exit)
    requires (e.Stopped? || e.Trailed?) && (e.Trailed? ==> e.bar <= e.last)
    requires var m := LastBar(e) + 1; m <= |cs| && m <= |cs'| && cs[..m] == cs'[..m]
    ensures LongPnl(p, cs', e) == LongPnl(p, cs, e) && ShortPnl(p, cs', e) == ShortPnl(p, cs, e)
  {
    if e.Trailed? { HighSincePrefix(p, cs, cs', e.bar, e.last); }
  }

  /** Once a long has left at bar j, bars after j may change, vanish or be added without any effect. */
  lemma LongNoLookAhead(p: Plan, cs: seq<Candle>, cs': seq<Candle>, from: nat, e: Exit)
    requires 0 < |cs| && e == LongExit(p, cs, from, |cs|) && (e.Stopped? || e.Trailed?)
    requires var m := LastBar(e) + 1; m <= |cs'| && cs[..m] == cs'[..m]
    ensures LongTrade(p, cs', from) == LongTrade(p, cs, from)
  {
    LongLeftAt(p, cs, from, |cs|);
    LongExitSettled(p, cs, cs', from, LastBar(e) + 1);
    PnlSettled(p, cs, cs', e);
  }

  lemma ShortNoLookAhead(p: Plan, cs: seq<Candle>, cs': seq<Candle>, from: nat, e: Exit)
    requires 0 < |cs| && e == ShortExit(p, cs, from, |cs|) && (e.Stopped? || e.Trailed?)
    requires var m := LastBar(e) + 1; m <= |cs'| && cs[..m] == cs'[..m]
    ensures ShortTrade(p, cs', from) == ShortTrade(p, cs, from)
  {
    ShortLeftAt(p, cs, from, |cs|);
    ShortExitSettled(p, cs, cs', from, LastBar(e) + 1);
    PnlSettled(p, cs, cs', e);
  }

  /** The ATR of a signal reads no candle after the signal bar. */
  lemma AtrNoLookAhead(cs: seq<Candle>, cs': seq<Candle>, signalIndex: nat, atrPeriod: int)
    requires signalIndex < |cs| && signalIndex < |cs'| && cs[..signalIndex + 1] == cs'[..signalIndex + 1]
    ensures AtrAt(cs, signalIndex, atrPeriod) == AtrAt(cs', signalIndex, atrPeriod)
  {
    var n := signalIndex + 1;
    var from := if n - atrPeriod > 0 then n - atrPeriod else 0;
    if from < n {
      assert cs[from..n] == cs[..n][from..n] == cs'[..n][from..n] == cs'[from..n];
    }
    assert AtrWindow(cs, signalIndex, atrPeriod) == AtrWindow(cs', signalIndex, atrPeriod);
  }

  /** The entry price reads nothing but the open of the bar after the signal. */
  lemma EntryNoLookAhead(cs: seq<Candle>, cs': seq<Candle>, signal: Signal, slippagePct: real)
    requires signal.index + 1 < |cs| && signal.index + 1 < |cs'|
    requires cs[signal.index + 1].open == cs'[signal.index + 1].open
    ensures EntryPrice(cs, signal, slippagePct) == EntryPrice(cs', signal, slippagePct)
  {
  }

  function ExitOn(p: Plan, cs: seq<Candle>, side: Side, from: nat): Exit {
    if side == Sell then ShortExit(p, cs, from, |cs|) else LongExit(p, cs, from, |cs|)
  }

  /** The plan of a signal reads the candles up to the N+1 bar only. */
  lemma PlanNoLookAhead(cs: seq<Candle>, cs': seq<Candle>, signal: Signal, ps: Params)
    requires var m := signal.index + 2; m <= |cs| && m <= |cs'| && cs[..m] == cs'[..m]
    ensures EntryPrice(cs, signal, ps.slippagePct) == EntryPrice(cs', signal, ps.slippagePct)
    ensures AtrAt(cs, signal.index, ps.atrPeriod) == AtrAt(cs', signal.index, ps.atrPeriod)
  {
    var m, n := signal.index + 2, signal.index + 1;
    assert cs[n] == cs[..m][n] == cs'[n];
    assert cs[..n] == cs[..m][..n] == cs'[..n];
    EntryNoLookAhead(cs, cs', signal, ps.slippagePct);
    AtrNoLookAhead(cs, cs', signal.index, ps.atrPeriod);
  }

  lemma TradeOnNoLookAhead(p: Plan, cs: seq<Candle>, cs': seq<Candle>, side: Side, from: nat, e: Exit)
    requires 0 < |cs| && e == ExitOn(p, cs, side, from) && (e.Stopped? || e.Trailed?)
    requires var m := LastBar(e) + 1; m <= |cs'| && cs[..m] == cs'[..m]
    ensures TradeOn(p, cs', side, from) == TradeOn(p, cs, side, from)
  {
    if side == Sell { ShortNoLookAhead(p, cs, cs', from, e); } else { LongNoLookAhead(p, cs, cs', from, e); }
  }

  /** End to end: a stopped or trailed trade is settled by the candles up to the bar it left at. */
  lemma TradeNoLookAhead(cs: seq<Candle>, cs': seq<Candle>, signal: Signal, ps: Params, p: Plan, e: Exit)
    requires TradeOf(cs, signal, ps).Ok? && p == PlanOf(cs, signal, ps, EntryPrice(cs, signal, ps.slippagePct).value)
    requires e == ExitOn(p, cs, signal.side, signal.index + 1) && (e.Stopped? || e.Trailed?)
    requires var m := LastBar(e) + 1; m <= |cs'| && cs[..m] == cs'[..m]
    ensures TradeOf(cs', signal, ps) == TradeOf(cs, signal, ps)
  {
    var m, n := LastBar(e) + 1, signal.index + 2;
    assert n <= m;
    assert cs[..n] == cs[..m][..n] == cs'[..n];
    PlanNoLookAhead(cs, cs', signal, ps);
    TradeOnNoLookAhead(p, cs, cs', signal.side, signal.index + 1, e);
  }

  /* ---- Loss floor ---- */

  lemma ReturnFloor(pnl: real, entry: real)
    requires entry > 0.0 && pnl >= -entry
    ensures pnl / entry >= -1.0
  {
    DivMono(-entry, pnl, entry);
  }

  /** Two half legs, the second at most `trail` worse than the first. */
  lemma HalfFloor(b1: real, s1: real, b2: real, s2: real, trail: real)
    requires s2 - b2 >= (s1 - b1) - trail
    ensures Leg(b1, s1, 0.5) + Leg(b2, s2, 0.5) >= (s1 - b1) - trail * 0.5
  {
  }

  /** The price at which the second half of a long leaves is at least the trailing stop, and never negative. */
  lemma LongSecondHalf(p: Plan, cs: seq<Candle>, from: nat, e: Exit) returns (x: real)
    requires from < |cs| && AllWellFormed(cs) && p.LongTarget() > 0.0
    requires e == LongExit(p, cs, from, |cs|) && (e.Half? || e.Trailed?)
    ensures x >= p.LongTarget() - p.trail && x >= 0.0
    ensures LongPnl(p, cs, e) == Leg(p.entry, p.LongTarget(), 0.5) + Leg(p.entry, x, 0.5)
  {
    LongExitSound(p, cs, from, |cs|);
    var k := if e.Half? then |cs| - 1 else e.last;
    HighSinceIsMaximum(p, cs, e.bar, k);
    assert LongTrailStop(p, cs, e.bar, k) >= p.LongTarget() - p.trail;
    assert WellFormed(cs[k]);
    x := if e.Half? then cs[k].close else LongTrailStop(p, cs, e.bar, k);
  }

  /**
   For well-formed candles and a positive target distance, a long earns at least tp - trail/2 once its
   half is taken, at least stop - entry otherwise, and never loses more than the entry price.
   */
  lemma LongFloor(p: Plan, cs: seq<Candle>, from: nat, e: Exit)
    requires from < |cs| && AllWellFormed(cs) && p.entry > 0.0 && p.tpDist > 0.0
    requires e == LongExit(p, cs, from, |cs|)
    ensures e.Half? || e.Trailed? ==> LongTrade(p, cs, from).pnl >= p.tpDist - p.trail * 0.5
    ensures e.Untouched? || e.Stopped? ==> LongTrade(p, cs, from).pnl >= p.LongStop() - p.entry
    ensures LongTrade(p, cs, from).ret >= -1.0
  {
    var pnl := LongPnl(p, cs, e);
    if e.Half? || e.Trailed? {
      var x := LongSecondHalf(p, cs, from, e);
      HalfFloor(p.entry, p.LongTarget(), p.entry, x, p.trail);
      HalfFloor(p.entry, p.LongTarget(), p.entry, x, p.LongTarget());
      assert pnl >= -p.entry;
    } else {
      LongExitSound(p, cs, from, |cs|);
      assert WellFormed(cs[|cs| - 1]);
      assert pnl >= p.LongStop() - p.entry >= -p.entry;
    }
    ReturnFloor(pnl, p.entry);
  }

  lemma ShortSecondHalf(p: Plan, cs: seq<Candle>, from: nat, e: Exit) returns (x: real)
    requires from < |cs| && AllWellFormed(cs) && forall k :: 0 <= k < |cs| ==> cs[k].low > 0.0
    requires e == ShortExit(p, cs, from, |cs|) && (e.Half? || e.Trailed?)
    ensures x <= p.ShortTarget() + p.trail && p.ShortTarget() == p.entry - p.tpDist
    ensures ShortPnl(p, cs, e) == Leg(p.ShortTarget(), p.entry, 0.5) + Leg(x, p.entry, 0.5)
  {
    ShortExitSound(p, cs, from, |cs|);
    var k := if e.Half? then |cs| - 1 else e.last;
    LowSinceIsMinimum(p, cs, e.bar, k);
    assert WellFormed(cs[k]);
    x := if e.Half? then cs[k].close else ShortTrailStop(p, cs, e.bar, k);
  }

  /** The short analogue, for candles with positive lows (a target clamped to zero is then never taken). */
  lemma ShortFloor(p: Plan, cs: seq<Candle>, from: nat, e: Exit)
    requires from < |cs| && AllWellFormed(cs) && forall k :: 0 <= k < |cs| ==> cs[k].low > 0.0
    requires e == ShortExit(p, cs, from, |cs|)
    ensures e.Half? || e.Trailed? ==> ShortTrade(p, cs, from).pnl >= p.tpDist - p.trail * 0.5
    ensures e.Untouched? || e.Stopped? ==> ShortTrade(p, cs, from).pnl >= p.entry - p.ShortStop()
  {
    if e.Half? || e.Trailed? {
      var x := ShortSecondHalf(p, cs, from, e);
      HalfFloor(p.ShortTarget(), p.entry, x, p.entry, p.trail);
    } else {
      ShortExitSound(p, cs, from, |cs|);
      assert WellFormed(cs[|cs| - 1]);
    }
  }

  /** The exit of a short told without a loop. */
  ghost predicate IsShortExit(p: Plan, cs: seq<Candle>, from: nat, n: nat, e: Exit)
    requires n <= |cs|
  {
    match e
    case Untouched => ShortQuiet(p, cs, from, n)
    case Stopped(i) => from <= i < n && ShortQuiet(p, cs, from, i) && cs[i].high >= p.ShortStop()
    case Half(i) => from <= i < n && ShortTakes(p, cs, from, i) && ShortHolds(p, cs, i, n)
    case Trailed(i, j) =>
      from <= i <= j < n && ShortTakes(p, cs, from, i) && ShortHolds(p, cs, i, j) && cs[j].high >= ShortTrailStop(p, cs, i, j)
  }

  ghost predicate ShortQuiet(p: Plan, cs: seq<Candle>, from: nat, n: nat)
    requires n <= |cs|
  {
    forall k :: from <= k < n ==> cs[k].high < p.ShortStop() && cs[k].low > p.ShortTarget()
  }

  ghost predicate ShortTakes(p: Plan, cs: seq<Candle>, from: nat, i: nat)
    requires i < |cs|
  {
    ShortQuiet(p, cs, from, i) && cs[i].high < p.ShortStop() && cs[i].low <= p.ShortTarget()
  }

  ghost predicate ShortHolds(p: Plan, cs: seq<Candle>, i: nat, n: nat)
    requires n <= |cs|
  {
    forall k :: i <= k < n ==> cs[k].high < ShortTrailStop(p, cs, i, k)
  }

  lemma {:induction false} ShortExitSound(p: Plan, cs: seq<Candle>, from: nat, n: nat)
    requires n <= |cs|
    ensures IsShortExit(p, cs, from, n, ShortExit(p, cs, from, n))
  {
    if from < n { ShortExitSound(p, cs, from, n - 1); }
  }

  lemma ShortExitMeaning(p: Plan, cs: seq<Candle>, from: nat, n: nat, e: Exit)
    requires n <= |cs|
    ensures IsShortExit(p, cs, from, n, e) <==> e == ShortExit(p, cs, from, n)
  {
    ShortExitSound(p, cs, from, n);
    if IsShortExit(p, cs, from, n, e) { ShortExitUnique(p, cs, from, n, e, ShortExit(p, cs, from, n)); }
  }

  lemma ShortExitUnique(p: Plan, cs: seq<Candle>, from: nat, n: nat, e: Exit, e': Exit)
    requires n <= |cs| && IsShortExit(p, cs, from, n, e) && IsShortExit(p, cs, from, n, e')
    ensures e == e'
  {
  }

  /* ---- Mirror ---- */

  /** A candle reflected about a price. */
  function Reflect(c: Candle, about: real): Candle {
    c.(open := 2.0 * about - c.open, high := 2.0 * about - c.low, low := 2.0 * about - c.high, close := 2.0 * about - c.close)
  }

  function Mirror(cs: seq<Candle>, about: real): (ms: seq<Candle>)
    ensures |ms| == |cs| && forall i :: 0 <= i < |cs| ==> ms[i] == Reflect(cs[i], about)
  {
    seq(|cs|, i requires 0 <= i < |cs| => Reflect(cs[i], about))
  }

  /** Positive prices on both sides of the mirror. */
  predicate MirrorPositive(p: Plan, cs: seq<Candle>) {
    forall i :: 0 <= i < |cs| ==> 0.0 < cs[i].low && cs[i].low <= cs[i].high < 2.0 * p.entry
  }

  lemma {:induction false} MirrorExtremes(p: Plan, cs: seq<Candle>, i: nat, k: nat)
    requires i <= k < |cs| && MirrorPositive(p, cs) && cs[i].high >= p.LongTarget()
    ensures LowSince(p, Mirror(cs, p.entry), i, k) == 2.0 * p.entry - HighSince(p, cs, i, k)
    ensures 0.0 < HighSince(p, cs, i, k) < 2.0 * p.entry
  {
    var c := cs[k];
    assert Mirror(cs, p.entry)[k] == Reflect(c, p.entry);
    if i < k { MirrorExtremes(p, cs, i, k - 1); }
  }

  /** Positive lows never touch a clamped level, so the clamps at zero make no difference. */
  lemma MirrorStep(p: Plan, cs: seq<Candle>, e: Exit, k: nat)
    requires k < |cs| && MirrorPositive(p, cs)
    requires e.Half? ==> e.bar <= k && cs[e.bar].high >= p.LongTarget()
    ensures ShortStep(p, Mirror(cs, p.entry), e, k) == LongStep(p, cs, e, k)
  {
    assert Mirror(cs, p.entry)[k] == Reflect(cs[k], p.entry);
    match e
    case Half(i) => MirrorExtremes(p, cs, i, k);
    case Untouched => if cs[k].high >= p.LongTarget() { MirrorExtremes(p, cs, k, k); }
    case _ =>
  }

  /** The bar a long leaves at, or takes its half at, touches the level in question. */
  lemma {:induction false} ExitTouches(p: Plan, cs: seq<Candle>, from: nat, n: nat)
    requires n <= |cs|
    ensures var e := LongExit(p, cs, from, n);
      && (e.Half? || e.Trailed? ==> cs[e.bar].high >= p.LongTarget())
      && (e.Stopped? ==> cs[e.bar].low <= p.LongStop())
      && (e.Trailed? ==> cs[e.last].low <= LongTrailStop(p, cs, e.bar, e.last))
  {
    if from < n { ExitTouches(p, cs, from, n - 1); }
  }

  lemma {:induction false} MirrorExit(p: Plan, cs: seq<Candle>, from: nat, n: nat)
    requires n <= |cs| && MirrorPositive(p, cs)
    ensures ShortExit(p, Mirror(cs, p.entry), from, n) == LongExit(p, cs, from, n)
  {
    if from < n {
      MirrorExit(p, cs, from, n - 1);
      ExitTouches(p, cs, from, n - 1);
      MirrorStep(p, cs, LongExit(p, cs, from, n - 1), n - 1);
    }
  }

  lemma MirrorPnl(p: Plan, cs: seq<Candle>, e: Exit)
    requires 0 < |cs| && MirrorPositive(p, cs)
    requires e.Half? || e.Trailed? ==> e.bar < |cs| && cs[e.bar].high >= p.LongTarget()
    requires e.Stopped? ==> e.bar < |cs| && cs[e.bar].low <= p.LongStop()
    requires e.Trailed? ==> e.bar <= e.last < |cs| && cs[e.last].low <= LongTrailStop(p, cs, e.bar, e.last)
    ensures ShortPnl(p, Mirror(cs, p.entry), e) == LongPnl(p, cs, e)
  {
    assert Mirror(cs, p.entry)[|cs| - 1] == Reflect(cs[|cs| - 1], p.entry);
    match e
    case Trailed(i, j) => MirrorExtremes(p, cs, i, j);
    case _ =>
  }

  /** A short on reflected candles is the long on the original ones: same profit, return and reason. */
  lemma LongShortMirror(p: Plan, cs: seq<Candle>, from: nat)
    requires 0 < |cs| && MirrorPositive(p, cs)
    ensures ShortTrade(p, Mirror(cs, p.entry), from) == LongTrade(p, cs, from)
  {
    MirrorExit(p, cs, from, |cs|);
    ExitTouches(p, cs, from, |cs|);
    MirrorPnl(p, cs, LongExit(p, cs, from, |cs|));
  }
}
