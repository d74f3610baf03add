/** Maximum drawdown of a sequence of returns (app/services/backtest_jobs.py). */
module Drawdown {
  import opened Prelude

  /** So many units of an amount. */
  function Units(amount: real, units: real): real {
    amount * units
  }

  /** Compounded equity after the first k returns, starting from 1. */
  function Equity(rs: seq<real>, k: nat): (e: real)
    requires k <= |rs|
    ensures e >= 0.0
  {
    if k == 0 then 1.0 else Units(Equity(rs, k - 1), Max(0.0, 1.0 + rs[k - 1]))
  }

  /** The relative fall from point i to a later point j of the equity curve. */
  function Fall(rs: seq<real>, i: nat, j: nat): real
    requires i <= j <= |rs| && Equity(rs, i) > 0.0
  {
    (Equity(rs, i) - Equity(rs, j)) / Equity(rs, i)
  }

  /** Every fall within the first n points is at most d. */
  ghost predicate BoundsFalls(rs: seq<real>, n: nat, d: real)
    requires n <= |rs|
  {
    forall i: nat, j: nat :: i <= j <= n && Equity(rs, i) > 0.0 ==> Fall(rs, i, j) <= d
  }

  ghost predicate IsFall(rs: seq<real>, n: nat, d: real)
    requires n <= |rs|
  {
    exists i: nat, j: nat :: i <= j <= n && Equity(rs, i) > 0.0 && Fall(rs, i, j) == d
  }

  /** d is the largest fall between any two points i <= j <= n of the equity curve. */
  ghost predicate IsMaxDrawdown(rs: seq<real>, n: nat, d: real)
    requires n <= |rs|
  {
    BoundsFalls(rs, n, d) && IsFall(rs, n, d)
  }

  /** peak is the highest equity so far. */
  ghost predicate IsPeak(rs: seq<real>, n: nat, peak: real)
    requires n <= |rs|
  {
    && (forall i: nat :: i <= n ==> Equity(rs, i) <= peak)
    && (exists i: nat :: i <= n && Equity(rs, i) == peak)
  }

  /** Measured from the running peak, the fall to the current point is the worst of all falls ending there. */
  lemma FallFromPeak(rs: seq<real>, n: nat, peak: real, i: nat)
    requires n <= |rs| && IsPeak(rs, n, peak) && i <= n && Equity(rs, i) > 0.0
    ensures Fall(rs, i, n) <= (peak - Equity(rs, n)) / peak <= 1.0
  {
    FallAntitone(Equity(rs, i), peak, Equity(rs, n));
  }

  lemma BoundStep(rs: seq<real>, n: nat, peak: real, d: real, now: real)
    requires 0 < n <= |rs| && BoundsFalls(rs, n - 1, d) && IsPeak(rs, n, peak)
    requires peak > 0.0 && now == (peak - Equity(rs, n)) / peak
    ensures BoundsFalls(rs, n, Max(d, now))
  {
    forall i: nat, j: nat | i <= j <= n && Equity(rs, i) > 0.0 ensures Fall(rs, i, j) <= Max(d, now) {
      if j == n { FallFromPeak(rs, n, peak, i); }
    }
  }

  lemma PeakFall(rs: seq<real>, n: nat, peak: real, now: real)
    requires n <= |rs| && IsPeak(rs, n, peak) && peak > 0.0 && now == (peak - Equity(rs, n)) / peak
    ensures IsFall(rs, n, now)
  {
    var top: nat :| top <= n && Equity(rs, top) == peak;
    assert Fall(rs, top, n) == now;
  }

  lemma FallStays(rs: seq<real>, n: nat, d: real)
    requires 0 < n <= |rs| && IsFall(rs, n - 1, d)
    ensures IsFall(rs, n, d)
  {
    var i: nat, j: nat :| i <= j <= n - 1 && Equity(rs, i) > 0.0 && Fall(rs, i, j) == d;
    assert j <= n && Fall(rs, i, j) == d;
  }

  lemma DrawdownStep(rs: seq<real>, n: nat, peak: real, d: real, now: real)
    requires 0 < n <= |rs| && IsMaxDrawdown(rs, n - 1, d) && IsPeak(rs, n, peak) && peak > 0.0
    requires now == (peak - Equity(rs, n)) / peak
    ensures IsMaxDrawdown(rs, n, Max(d, now))
  {
    BoundStep(rs, n, peak, d, now);
    if d >= now { FallStays(rs, n, d); } else { PeakFall(rs, n, peak, now); }
  }

  /** The single pass: running equity, running peak, worst fall so far. */
  method MaxDrawdown(rs: seq<real>) returns (maxDd: real)
    ensures IsMaxDrawdown(rs, |rs|, maxDd)
  {
    var equity, peak := 1.0, 1.0;
    maxDd := 0.0;
    assert Fall(rs, 0, 0) == 0.0;
    assert Equity(rs, 0) == peak;
    for k := 0 to |rs|
      invariant equity == Equity(rs, k)
      invariant IsPeak(rs, k, peak)
      invariant IsMaxDrawdown(rs, k, maxDd)
    {
      equity := equity * Max(0.0, 1.0 + rs[k]);
      assert equity == Equity(rs, k + 1);
      ghost var i: nat :| i <= k && Equity(rs, i) == peak;
      peak := Max(peak, equity);
      assert Equity(rs, if peak == equity then k + 1 else i) == peak;
      assert peak >= Equity(rs, 0);
      DrawdownStep(rs, k + 1, peak, maxDd, (peak - equity) / peak);
      if peak > 0.0 {
        maxDd := Max(maxDd, (peak - equity) / peak);
      }
    }
  }

  lemma DrawdownUnique(rs: seq<real>, n: nat, d: real, d': real)
    requires n <= |rs| && IsMaxDrawdown(rs, n, d) && IsMaxDrawdown(rs, n, d')
    ensures d == d'
  {
  }

  /** A drawdown is a fraction, and never shrinks when more returns follow. */
  lemma DrawdownRange(rs: seq<real>, m: nat, n: nat, d: real, d': real)
    requires m <= n <= |rs| && IsMaxDrawdown(rs, m, d) && IsMaxDrawdown(rs, n, d')
    ensures 0.0 <= d <= d' <= 1.0
  {
    assert Equity(rs, 0) == 1.0 && Fall(rs, 0, 0) == 0.0;
    var i: nat, j: nat :| i <= j <= m && Equity(rs, i) > 0.0 && Fall(rs, i, j) == d;
    assert Fall(rs, i, j) <= d';
    var i': nat, j': nat :| i' <= j' <= n && Equity(rs, i') > 0.0 && Fall(rs, i', j') == d';
    DivMono(Equity(rs, i') - Equity(rs, j'), Equity(rs, i'), Equity(rs, i'));
  }

  /** There is no drawdown exactly when no return is negative. */
  lemma DrawdownZero(rs: seq<real>, d: real)
    requires IsMaxDrawdown(rs, |rs|, d)
    ensures d == 0.0 <==> forall k :: 0 <= k < |rs| ==> rs[k] >= 0.0
  {
    if forall k :: 0 <= k < |rs| ==> rs[k] >= 0.0 {
      var i: nat, j: nat :| i <= j <= |rs| && Equity(rs, i) > 0.0 && Fall(rs, i, j) == d;
      EquityGrows(rs, i, j);
      DivMono(Equity(rs, i) - Equity(rs, j), 0.0, Equity(rs, i));
      assert Equity(rs, 0) == 1.0 && Fall(rs, 0, 0) == 0.0;
    }
    if d == 0.0 {
      NoFallNoLoss(rs, d, |rs|);
    }
  }

  lemma {:induction false} NoFallNoLoss(rs: seq<real>, d: real, n: nat)
    requires IsMaxDrawdown(rs, |rs|, d) && d == 0.0 && n <= |rs|
    ensures Equity(rs, n) >= 1.0 && forall k :: 0 <= k < n ==> rs[k] >= 0.0
  {
    if n > 0 {
      NoFallNoLoss(rs, d, n - 1);
      StepWithoutFall(rs, d, n);
    }
  }

  lemma StepWithoutFall(rs: seq<real>, d: real, n: nat)
    requires IsMaxDrawdown(rs, |rs|, d) && d == 0.0 && 0 < n <= |rs| && Equity(rs, n - 1) >= 1.0
    ensures Equity(rs, n) >= Equity(rs, n - 1) && rs[n - 1] >= 0.0
  {
    var growth := Max(0.0, 1.0 + rs[n - 1]);
    assert Fall(rs, n - 1, n) <= 0.0;
    NoDrop(Equity(rs, n - 1), Equity(rs, n), growth);
    assert growth >= 1.0;
  }

  lemma NoDrop(e: real, e': real, growth: real)
    requires e >= 1.0 && e' == e * growth && (e - e') / e <= 0.0
    ensures growth >= 1.0 && e' >= e
  {
    DivTimes(e - e', e);
    MulMono(e, (e - e') / e, 0.0);
    if growth < 1.0 { MulStrict(e, growth, 1.0); }
  }

  lemma DivTimes(a: real, b: real)
    requires b > 0.0
    ensures b * (a / b) == a
  {
  }

  lemma {:induction false} EquityGrows(rs: seq<real>, i: nat, j: nat)
    requires i <= j <= |rs| && forall k :: i <= k < j ==> rs[k] >= 0.0
    ensures Equity(rs, i) <= Equity(rs, j)
  {
    if i < j {
      EquityGrows(rs, i, j - 1);
      MulMono(Equity(rs, j - 1), 1.0, 1.0 + rs[j - 1]);
    }
  }

  /* ---- Over assets ---- */

  /** An amount after one return. */
  function After(amount: real, r: real): real {
    amount + amount * r
  }

  /** The returns rs are those of the positive asset series assets. */
  ghost predicate AreReturns(assets: seq<real>, rs: seq<real>) {
    && |assets| == |rs| + 1
    && (forall k :: 0 <= k < |assets| ==> assets[k] > 0.0)
    && forall k :: 0 <= k < |rs| ==> assets[k + 1] == After(assets[k], rs[k])
  }

  /** Equity is what one unit of the first assets has become. */
  lemma {:induction false} EquityOfAssets(assets: seq<real>, rs: seq<real>, k: nat)
    requires AreReturns(assets, rs) && k <= |rs|
    ensures Units(assets[0], Equity(rs, k)) == assets[k]
  {
    if k > 0 {
      EquityOfAssets(assets, rs, k - 1);
      OneMoreReturn(assets[0], Equity(rs, k - 1), rs[k - 1], assets[k - 1], assets[k]);
    }
  }

  lemma OneMoreReturn(c: real, e: real, r: real, x: real, y: real)
    requires Units(c, e) == x && y == After(x, r) && x > 0.0 && y > 0.0
    ensures Units(c, Units(e, Max(0.0, 1.0 + r))) == y
  {
    var g := 1.0 + r;
    assert y == x * g;
    if g <= 0.0 { MulMono(x, g, 0.0); }
    OneMoreFactor(c, e, g, x, y);
  }

  lemma OneMoreFactor(c: real, e: real, g: real, x: real, y: real)
    requires c * e == x && x * g == y
    ensures c * (e * g) == y
  {
    assert c * (e * g) == (c * e) * g;
  }

  lemma SameRatio(c: real, a: real, b: real, x: real, y: real)
    requires c > 0.0 && Units(c, a) == x && Units(c, b) == y && x > 0.0
    ensures a > 0.0 && (a - b) / a == (x - y) / x
  {
    if a <= 0.0 { MulMono(c, a, 0.0); }
    var q := (a - b) / a;
    assert q * a == a - b;
    QuotientOf(c, a, b, q, x, y);
  }

  lemma QuotientOf(c: real, a: real, b: real, q: real, x: real, y: real)
    requires q * a == a - b && x == c * a && y == c * b && x > 0.0
    ensures q == (x - y) / x
  {
    assert q * x == c * (q * a) == c * a - c * b;
    assert q * x == x - y;
  }

  /** So falls of equity are the relative falls of the assets themselves. */
  lemma FallOfAssets(assets: seq<real>, rs: seq<real>, i: nat, j: nat)
    requires AreReturns(assets, rs) && i <= j <= |rs|
    ensures Equity(rs, i) > 0.0 && Fall(rs, i, j) == (assets[i] - assets[j]) / assets[i]
  {
    EquityOfAssets(assets, rs, i);
    EquityOfAssets(assets, rs, j);
    SameRatio(assets[0], Equity(rs, i), Equity(rs, j), assets[i], assets[j]);
  }

  /** The drawdown of the returns of an asset series is the largest relative fall of the assets, and some fall is that large. */
  lemma DrawdownOfAssets(assets: seq<real>, rs: seq<real>, d: real)
    requires AreReturns(assets, rs) && IsMaxDrawdown(rs, |rs|, d)
    ensures forall i, j :: 0 <= i <= j < |assets| ==> (assets[i] - assets[j]) / assets[i] <= d
    ensures exists i, j :: 0 <= i <= j < |assets| && (assets[i] - assets[j]) / assets[i] == d
  {
    forall i, j | 0 <= i <= j < |assets| ensures (assets[i] - assets[j]) / assets[i] <= d {
      FallOfAssets(assets, rs, i, j);
    }
    var i: nat, j: nat :| i <= j <= |rs| && Equity(rs, i) > 0.0 && Fall(rs, i, j) == d;
    FallOfAssets(assets, rs, i, j);
    assert (assets[i] - assets[j]) / assets[i] == d;
  }
}
