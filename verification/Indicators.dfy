/** The exponential moving average of app/strategies/helpers.py. */
module Indicators {
  import opened Prelude
  import Risk

  /** A weighted average of a new value and the current one. */
  function Blend(k: real, value: real, current: real): real {
    value * k + current * (1.0 - k)
  }

  function Weight(period: nat): real
    requires period > 0
  {
    2.0 / (period + 1) as real
  }

  /** The average over the first n values: the mean of the first `period`, then one blend per value. */
  function EmaOf(values: seq<real>, period: nat, n: nat): real
    requires 0 < period <= n <= |values|
  {
    if n == period then Mean(Sum(values[..period]), period)
    else Blend(Weight(period), values[n - 1], EmaOf(values, period, n - 1))
  }

  method Ema(values: seq<real>, period: int) returns (r: Result<real, string>)
    ensures r.Err? <==> period <= 0 || |values| < period
    ensures r.Ok? ==> r.value == EmaOf(values, period, |values|)
  {
    if period <= 0 { return Err("period must be positive"); }
    if |values| < period { return Err("not enough samples for EMA"); }
    var current := Mean(Sum(values[..period]), period);
    for n := period to |values|
      invariant current == EmaOf(values, period, n)
    {
      current := Blend(Weight(period), values[n], current);
    }
    r := Ok(current);
  }

  lemma WeightRange(period: nat)
    requires period > 0
    ensures 0.0 < Weight(period) <= 1.0
  {
    DivMono(2.0, (period + 1) as real, (period + 1) as real);
  }

  lemma BlendBetween(k: real, a: real, b: real, lo: real, hi: real)
    requires 0.0 <= k <= 1.0 && lo <= a <= hi && lo <= b <= hi
    ensures lo <= Blend(k, a, b) <= hi
  {
    BlendMono(k, lo, lo, a, b);
    BlendMono(k, a, b, hi, hi);
    BlendSame(k, lo);
    BlendSame(k, hi);
  }

  lemma BlendGap(k: real, a: real, b: real, a': real, b': real)
    ensures Blend(k, a', b') - Blend(k, a, b) == (a' - a) * k + (b' - b) * (1.0 - k)
  {
  }

  lemma BlendMono(k: real, a: real, b: real, a': real, b': real)
    requires 0.0 <= k <= 1.0 && a <= a' && b <= b'
    ensures Blend(k, a, b) <= Blend(k, a', b')
  {
    BlendGap(k, a, b, a', b');
    assert 0.0 <= (a' - a) * k;
    assert 0.0 <= (b' - b) * (1.0 - k);
  }

  lemma BlendSame(k: real, x: real)
    ensures Blend(k, x, x) == x
  {
  }

  lemma BlendShift(k: real, a: real, b: real, c: real)
    ensures Blend(k, a + c, b + c) == Blend(k, a, b) + c
  {
  }

  /** The average lies between any bounds of its inputs. */
  lemma {:induction false} EmaBetween(values: seq<real>, period: nat, n: nat, lo: real, hi: real)
    requires 0 < period <= n <= |values|
    requires forall i :: 0 <= i < n ==> lo <= values[i] <= hi
    ensures lo <= EmaOf(values, period, n) <= hi
  {
    if n == period {
      var los := seq(period, i => lo);
      Risk.MeanBetween(los, values[..period], hi);
      ConstantMean(lo, period);
    } else {
      EmaBetween(values, period, n - 1, lo, hi);
      WeightRange(period);
      BlendBetween(Weight(period), values[n - 1], EmaOf(values, period, n - 1), lo, hi);
    }
  }

  lemma {:induction false} ConstantSum(x: real, n: nat)
    ensures Sum(seq(n, i => x)) == Times(n, x)
  {
    if n > 0 {
      assert seq(n, i => x)[..n - 1] == seq(n - 1, i => x);
      ConstantSum(x, n - 1);
    }
  }

  lemma ConstantMean(x: real, n: nat)
    requires n > 0
    ensures Mean(Sum(seq(n, i => x)), n) == x
  {
    ConstantSum(x, n);
    TimesIsProduct(n, x);
  }

  lemma {:induction false} SumMono(xs: seq<real>, ys: seq<real>)
    requires |xs| == |ys| && forall i :: 0 <= i < |xs| ==> xs[i] <= ys[i]
    ensures Sum(xs) <= Sum(ys)
  {
    if xs != [] { SumMono(xs[..|xs| - 1], ys[..|ys| - 1]); }
  }

  /** Raising inputs never lowers the average. */
  lemma {:induction false} EmaMonotone(xs: seq<real>, ys: seq<real>, period: nat, n: nat)
    requires 0 < period <= n <= |xs| == |ys|
    requires forall i :: 0 <= i < n ==> xs[i] <= ys[i]
    ensures EmaOf(xs, period, n) <= EmaOf(ys, period, n)
  {
    if n == period {
      SumMono(xs[..period], ys[..period]);
      DivMono(Sum(xs[..period]), Sum(ys[..period]), period as real);
    } else {
      EmaMonotone(xs, ys, period, n - 1);
      WeightRange(period);
      BlendMono(Weight(period), xs[n - 1], EmaOf(xs, period, n - 1), ys[n - 1], EmaOf(ys, period, n - 1));
    }
  }

  lemma {:induction false} SumShift(xs: seq<real>, ys: seq<real>, c: real)
    requires |xs| == |ys| && forall i :: 0 <= i < |xs| ==> ys[i] == xs[i] + c
    ensures Sum(ys) == Sum(xs) + Times(|xs|, c)
  {
    if xs != [] { SumShift(xs[..|xs| - 1], ys[..|ys| - 1], c); }
  }

  lemma MeanShift(a: real, b: real, n: nat, c: real)
    requires n > 0 && b == a + Times(n, c)
    ensures Mean(b, n) == Mean(a, n) + c
  {
    TimesIsProduct(n, c);
  }

  /** Shifting all inputs shifts the average. */
  lemma {:induction false} EmaShift(xs: seq<real>, ys: seq<real>, period: nat, n: nat, c: real)
    requires 0 < period <= n <= |xs| == |ys|
    requires forall i :: 0 <= i < n ==> ys[i] == xs[i] + c
    ensures EmaOf(ys, period, n) == EmaOf(xs, period, n) + c
  {
    if n == period {
      SumShift(xs[..period], ys[..period], c);
      MeanShift(Sum(xs[..period]), Sum(ys[..period]), period, c);
    } else {
      EmaShift(xs, ys, period, n - 1, c);
      BlendShift(Weight(period), xs[n - 1], EmaOf(xs, period, n - 1), c);
    }
  }

  /** The average starts as the mean of the first values, then moves two parts in period + 1 towards each new one. */
  lemma EmaRecurrence(values: seq<real>, period: nat, n: nat)
    requires 0 < period < n <= |values|
    ensures EmaOf(values, period, period) == Mean(Sum(values[..period]), period)
    ensures EmaOf(values, period, n) * (period + 1) as real
            == 2.0 * values[n - 1] + (period as real - 1.0) * EmaOf(values, period, n - 1)
  {
    BlendParts(period, values[n - 1], EmaOf(values, period, n - 1));
  }

  lemma BlendParts(period: nat, value: real, current: real)
    requires period > 0
    ensures Blend(Weight(period), value, current) * (period + 1) as real == 2.0 * value + (period as real - 1.0) * current
  {
    var k, d := Weight(period), (period + 1) as real;
    assert k * d == 2.0;
    assert Blend(k, value, current) * d == value * (k * d) + current * (d - k * d);
    assert d - 2.0 == period as real - 1.0;
  }
}
