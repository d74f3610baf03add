/** Small vocabulary shared by every component: options, real-number helpers and finite sums. */
module Prelude {

  datatype Option<+T> = None | Some(value: T)

  datatype Result<+T, +E> = Ok(value: T) | Err(error: E)

  function Max(a: real, b: real): real {
    if a >= b then a else b
  }

  function Min(a: real, b: real): real {
    if a <= b then a else b
  }

  function Abs(a: real): real {
    if a >= 0.0 then a else -a
  }

  /** The sum of a sequence, peeled from the right so that it follows a left-to-right loop. */
  function Sum(xs: seq<real>): real {
    if xs == [] then 0.0 else Sum(xs[..|xs| - 1]) + xs[|xs| - 1]
  }

  /** n times x, by repeated addition: no proof about it multiplies unknowns. */
  function Times(n: nat, x: real): real {
    if n == 0 then 0.0 else Times(n - 1, x) + x
  }

  lemma {:induction false} TimesIsProduct(n: nat, x: real)
    ensures Times(n, x) == n as real * x
  {
    if n > 0 {
      TimesIsProduct(n - 1, x);
      assert n as real * x == (n - 1) as real * x + x;
    }
  }

  lemma SumSnoc(xs: seq<real>, x: real)
    ensures Sum(xs + [x]) == Sum(xs) + x
  {
    assert (xs + [x])[..|xs|] == xs;
  }

  lemma {:induction false} SumConcat(xs: seq<real>, ys: seq<real>)
    ensures Sum(xs + ys) == Sum(xs) + Sum(ys)
  {
    if ys == [] {
      assert xs + ys == xs;
    } else {
      var n := |ys| - 1;
      SumConcat(xs, ys[..n]);
      assert xs + ys == (xs + ys[..n]) + [ys[n]];
      SumSnoc(xs + ys[..n], ys[n]);
    }
  }

  /** A product with a nonnegative factor is monotone in the other one. */
  lemma MulMono(c: real, a: real, b: real)
    requires 0.0 <= c && a <= b
    ensures c * a <= c * b
  {
    assert 0.0 <= c * (b - a);
  }

  lemma DivMono(a: real, b: real, c: real)
    requires a <= b && 0.0 < c
    ensures a / c <= b / c
  {
    assert b / c - a / c == (b - a) / c;
  }

  lemma DivSub(a: real, b: real, c: real)
    requires c != 0.0
    ensures (a - b) / c == a / c - b / c
  {
  }

  /** The arithmetic mean of n values with the given total. */
  function Mean(total: real, n: nat): real
    requires n > 0
  {
    total / n as real
  }

  /** Means follow totals, and a total of at most n times hi has a mean of at most hi. */
  lemma MeanOrder(a: real, b: real, n: nat, hi: real)
    requires n > 0 && a <= b <= Times(n, hi)
    ensures Mean(a, n) <= Mean(b, n) <= hi
  {
    TimesIsProduct(n, hi);
    MeanSandwich(a, b, n as real, hi);
  }

  lemma MeanAtMost(n: real, total: real, hi: real)
    requires 0.0 < n && total <= n * hi
    ensures total / n <= hi
  {
    var m := total / n;
    assert m * n == total;
    if m > hi { MulStrict(n, hi, m); }
  }

  lemma MeanSandwich(a: real, b: real, n: real, hi: real)
    requires 0.0 < n && a <= b <= n * hi
    ensures a / n <= b / n <= hi
  {
    DivMono(a, b, n);
    MeanAtMost(n, b, hi);
  }

  /** Dividing by a larger positive number gives a smaller quotient. */
  lemma DivAntitone(e: real, a: real, b: real)
    requires 0.0 <= e && 0.0 < a <= b
    ensures 0.0 <= e / b <= e / a
  {
    var q, p := e / a, e / b;
    MulMono(p, a, b);
    assert (q - p) * a >= 0.0;
  }

  lemma MulStrict(c: real, a: real, b: real)
    requires 0.0 < c && a < b
    ensures c * a < c * b
  {
    assert 0.0 < c * (b - a);
  }

  /** The relative fall to a given level is largest, and at most 1, when measured from the highest start. */
  lemma FallAntitone(a: real, top: real, e: real)
    requires 0.0 < a <= top && 0.0 <= e
    ensures (a - e) / a <= (top - e) / top <= 1.0
  {
    DivAntitone(e, a, top);
    DivSub(a, e, a);
    DivSub(top, e, top);
  }

  /** Multiples of n are at least n apart. */
  lemma WholeSteps(r: int, q: int, n: nat)
    ensures r < q && n > 0 ==> q * n >= r * n + n
  {
    if r < q && n > 0 {
      var d := q - r - 1;
      assert (r + 1 + d) * n == r * n + n + d * n;
    }
  }
}
