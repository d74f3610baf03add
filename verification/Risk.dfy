/** ATR and stop/target prices of app/risk/engine.py. */
module Risk {
  import opened Prelude

  /* ---- Average true range ---- */

  function TrueRange(highs: seq<real>, lows: seq<real>, closes: seq<real>, i: nat): real
    requires i < |highs| && i < |lows| && i < |closes|
  {
    var prev := if i > 0 then closes[i - 1] else closes[i];
    Max(Max(highs[i] - lows[i], Abs(highs[i] - prev)), Abs(lows[i] - prev))
  }

  /** The first n true ranges. */
  function TrueRanges(highs: seq<real>, lows: seq<real>, closes: seq<real>, n: nat): (trs: seq<real>)
    requires n <= |highs| && n <= |lows| && n <= |closes|
    ensures |trs| == n
    ensures forall i :: 0 <= i < n ==> trs[i] == TrueRange(highs, lows, closes, i)
  {
    if n == 0 then [] else TrueRanges(highs, lows, closes, n - 1) + [TrueRange(highs, lows, closes, n - 1)]
  }

  function Shortest(a: nat, b: nat, c: nat): (r: nat)
    ensures r <= a && r <= b && r <= c && (r == a || r == b || r == c)
  {
    var m := if a <= b then a else b;
    if m <= c then m else c
  }

  function Atr(highs: seq<real>, lows: seq<real>, closes: seq<real>): real
    requires highs != [] && lows != [] && closes != []
  {
    var n := Shortest(|highs|, |lows|, |closes|);
    Mean(Sum(TrueRanges(highs, lows, closes, n)), n)
  }

  method ComputeAtr(highs: seq<real>, lows: seq<real>, closes: seq<real>) returns (r: Result<real, string>)
    ensures r.Err? <==> highs == [] || lows == [] || closes == []
    ensures r.Ok? ==> r.value == Atr(highs, lows, closes)
  {
    if highs == [] || lows == [] || closes == [] {
      return Err("high/low/close series are required");
    }
    var n := Shortest(|highs|, |lows|, |closes|);
    var trs: seq<real>, total := [], 0.0;
    for i := 0 to n
      invariant trs == TrueRanges(highs, lows, closes, i)
      invariant total == Sum(trs)
    {
      var prev := if i > 0 then closes[i - 1] else closes[i];
      var tr := Max(Max(highs[i] - lows[i], Abs(highs[i] - prev)), Abs(lows[i] - prev));
      assert tr == TrueRange(highs, lows, closes, i);
      SumSnoc(trs, tr);
      trs := trs + [tr];
      total := total + tr;
    }
    r := Ok(Mean(total, n));
  }

  /** Series in which every close lies inside its own bar. */
  ghost predicate WellFormedSeries(highs: seq<real>, lows: seq<real>, closes: seq<real>) {
    && |highs| == |lows| == |closes|
    && forall i :: 0 <= i < |highs| ==> lows[i] <= closes[i] <= highs[i]
  }

  /** Every true range lies between its bar's own range and the range of the whole window. */
  lemma TrueRangeBounds(highs: seq<real>, lows: seq<real>, closes: seq<real>, i: nat, top: real, bottom: real)
    requires WellFormedSeries(highs, lows, closes) && i < |highs|
    requires forall k :: 0 <= k < |highs| ==> bottom <= lows[k] && highs[k] <= top
    ensures highs[i] - lows[i] <= TrueRange(highs, lows, closes, i) <= top - bottom
  {
    var j := if i > 0 then i - 1 else i;
    assert bottom <= lows[j] <= closes[j] <= highs[j] <= top;
    assert bottom <= lows[i] <= closes[i] <= highs[i] <= top;
  }

  /** A mean lies between the mean of termwise lower bounds and any common upper bound. */
  lemma MeanBetween(lo: seq<real>, xs: seq<real>, hi: real)
    requires |lo| == |xs| && 0 < |xs|
    requires forall i :: 0 <= i < |xs| ==> lo[i] <= xs[i] <= hi
    ensures Mean(Sum(lo), |xs|) <= Mean(Sum(xs), |xs|) <= hi
  {
    SumBetween(lo, xs, hi);
    MeanOrder(Sum(lo), Sum(xs), |xs|, hi);
  }

  lemma {:induction false} SumBetween(lo: seq<real>, xs: seq<real>, hi: real)
    requires |lo| == |xs|
    requires forall i :: 0 <= i < |xs| ==> lo[i] <= xs[i] <= hi
    ensures Sum(lo) <= Sum(xs) <= Times(|xs|, hi)
  {
    if xs != [] { SumBetween(lo[..|xs| - 1], xs[..|xs| - 1], hi); }
  }

  /** Each bar's own range, high minus low. */
  function BarRanges(highs: seq<real>, lows: seq<real>): (rs: seq<real>)
    requires |highs| == |lows|
    ensures |rs| == |highs| && forall i :: 0 <= i < |rs| ==> rs[i] == highs[i] - lows[i]
  {
    seq(|highs|, i requires 0 <= i < |highs| && |highs| == |lows| => highs[i] - lows[i])
  }

  /** mean(high - low) <= ATR <= max(high) - min(low), for any window of well-formed candles. */
  lemma AtrBounds(highs: seq<real>, lows: seq<real>, closes: seq<real>, top: real, bottom: real)
    requires highs != [] && WellFormedSeries(highs, lows, closes)
    requires forall k :: 0 <= k < |highs| ==> bottom <= lows[k] && highs[k] <= top
    ensures Mean(Sum(BarRanges(highs, lows)), |highs|) <= Atr(highs, lows, closes) <= top - bottom
  {
    var trs := TrueRanges(highs, lows, closes, |highs|);
    forall i | 0 <= i < |highs| ensures BarRanges(highs, lows)[i] <= trs[i] <= top - bottom {
      TrueRangeBounds(highs, lows, closes, i, top, bottom);
    }
    MeanBetween(BarRanges(highs, lows), trs, top - bottom);
  }

  /** Stop and target of a long entry; the stop is clamped at zero. */
  function BuildStopTakeProfit(entry: real, atr: real, stopMult: real, tpMult: real): (real, real) {
    (Max(entry - atr * stopMult, 0.0), entry + atr * tpMult)
  }
}
