/**
 The margin-forced close of app/risk/engine.py (running subtraction over a priority order) and the
 close-then-resum loop of legacy/app_v1/loops/loop_a.py, proved to pick the same positions.
 */
module MarginClose {
  import opened Prelude

  datatype Exposure = Exposure(positionId: int, strategyId: string, value: real)

  /** First position of a strategy in the priority list; one past the end when it is not listed. */
  function Rank(priority: seq<string>, strategy: string): (r: nat)
    ensures r <= |priority|
    ensures r < |priority| ==> priority[r] == strategy
    ensures forall k :: 0 <= k < r ==> priority[k] != strategy
  {
    if priority == [] then 0
    else if priority[0] == strategy then 0
    else 1 + Rank(priority[1..], strategy)
  }

  function RankAt(xs: seq<Exposure>, priority: seq<string>, i: nat): nat
    requires i < |xs|
  {
    Rank(priority, xs[i].strategyId)
  }

  /** i comes before j: higher priority, or the same priority and listed earlier. */
  predicate Before(xs: seq<Exposure>, priority: seq<string>, i: nat, j: nat)
    requires i < |xs| && j < |xs|
  {
    RankAt(xs, priority, i) < RankAt(xs, priority, j) || (RankAt(xs, priority, i) == RankAt(xs, priority, j) && i < j)
  }

  /** idx lists row numbers, each at most once, in the stable priority order. */
  ghost predicate InStableOrder(xs: seq<Exposure>, priority: seq<string>, idx: seq<nat>) {
    && (forall a :: 0 <= a < |idx| ==> idx[a] < |xs|)
    && (forall a, b :: 0 <= a < b < |idx| ==> Before(xs, priority, idx[a], idx[b]))
  }

  /** The rows among the first n whose rank is r, in listing order. */
  function Bucket(xs: seq<Exposure>, priority: seq<string>, r: nat, n: nat): (b: seq<nat>)
    requires n <= |xs|
    ensures forall a :: 0 <= a < |b| ==> b[a] < n && RankAt(xs, priority, b[a]) == r
    ensures forall a, c :: 0 <= a < c < |b| ==> b[a] < b[c]
    ensures forall i: nat :: i < n && RankAt(xs, priority, i) == r ==> i in b
  {
    if n == 0 then []
    else Bucket(xs, priority, r, n - 1) + if RankAt(xs, priority, n - 1) == r then [n - 1] else []
  }

  /** The stable order of all rows whose rank is below r. */
  function OrderBelow(xs: seq<Exposure>, priority: seq<string>, r: nat): (idx: seq<nat>)
    ensures InStableOrder(xs, priority, idx)
    ensures forall a :: 0 <= a < |idx| ==> RankAt(xs, priority, idx[a]) < r
    ensures forall i: nat :: i < |xs| && RankAt(xs, priority, i) < r ==> i in idx
  {
    if r == 0 then [] else OrderBelow(xs, priority, r - 1) + Bucket(xs, priority, r - 1, |xs|)
  }

  /** What `sorted(exposures, key=...)` yields: every row exactly once, in stable priority order. */
  function PriorityOrder(xs: seq<Exposure>, priority: seq<string>): (idx: seq<nat>)
    ensures InStableOrder(xs, priority, idx)
    ensures forall i: nat :: i < |xs| ==> i in idx
  {
    OrderBelow(xs, priority, |priority| + 1)
  }

  /** Total value of the rows among the first n that are not closed. */
  function OpenValue(xs: seq<Exposure>, closed: set<nat>, n: nat): real
    requires n <= |xs|
  {
    if n == 0 then 0.0
    else OpenValue(xs, closed, n - 1) + if n - 1 in closed then 0.0 else xs[n - 1].value
  }

  function AsSet(idx: seq<nat>): set<nat> {
    set i | i in idx
  }

  /** Exposure left after closing the first k rows of an order. */
  function Left(xs: seq<Exposure>, idx: seq<nat>, k: nat): real
    requires k <= |idx|
  {
    OpenValue(xs, AsSet(idx[..k]), |xs|)
  }

  /** k is the shortest prefix of the order that brings exposure to at most base (everything, if none does). */
  ghost predicate IsCut(xs: seq<Exposure>, idx: seq<nat>, base: real, k: nat) {
    && k <= |idx|
    && (forall m :: 0 <= m < k ==> Left(xs, idx, m) > base)
    && (k == |idx| || Left(xs, idx, k) <= base)
  }

  lemma {:induction false} OpenValueClose(xs: seq<Exposure>, closed: set<nat>, i: nat, n: nat)
    requires n <= |xs| && i !in closed && i < |xs|
    ensures OpenValue(xs, closed + {i}, n) == OpenValue(xs, closed, n) - if i < n then xs[i].value else 0.0
  {
    if n > 0 { OpenValueClose(xs, closed, i, n - 1); }
  }

  lemma AsSetNext(idx: seq<nat>, k: nat)
    requires k < |idx|
    ensures AsSet(idx[..k + 1]) == AsSet(idx[..k]) + {idx[k]}
  {
    assert idx[..k + 1] == idx[..k] + [idx[k]];
  }

  /** Closing the next row of an order lowers the exposure left by exactly that row's value. */
  lemma LeftNext(xs: seq<Exposure>, priority: seq<string>, idx: seq<nat>, k: nat)
    requires InStableOrder(xs, priority, idx) && k < |idx|
    ensures Left(xs, idx, k + 1) == Left(xs, idx, k) - xs[idx[k]].value
  {
    AsSetNext(idx, k);
    forall a | 0 <= a < k ensures idx[a] != idx[k] {
      assert Before(xs, priority, idx[a], idx[k]);
    }
    OpenValueClose(xs, AsSet(idx[..k]), idx[k], |xs|);
  }

  method TotalValue(xs: seq<Exposure>) returns (total: real)
    ensures total == OpenValue(xs, {}, |xs|)
  {
    total := 0.0;
    for i := 0 to |xs|
      invariant total == OpenValue(xs, {}, i)
    {
      total := total + xs[i].value;
    }
  }

  /** The current engine: one pass, subtracting each chosen value from a running total. */
  method MarginForcedCloseOrder(xs: seq<Exposure>, base: real, priority: seq<string>) returns (toClose: seq<int>)
    ensures IsCut(xs, PriorityOrder(xs, priority), base, |toClose|)
    ensures forall a :: 0 <= a < |toClose| ==> toClose[a] == xs[PriorityOrder(xs, priority)[a]].positionId
  {
    toClose := SubtractUntil(xs, base, priority, PriorityOrder(xs, priority));
  }

  method SubtractUntil(xs: seq<Exposure>, base: real, priority: seq<string>, ordered: seq<nat>) returns (toClose: seq<int>)
    requires InStableOrder(xs, priority, ordered)
    ensures IsCut(xs, ordered, base, |toClose|)
    ensures forall a :: 0 <= a < |toClose| ==> toClose[a] == xs[ordered[a]].positionId
  {
    var total := TotalValue(xs);
    assert AsSet(ordered[..0]) == {};
    toClose := [];
    if total <= base { return; }
    var running, k := total, 0;
    while k < |ordered|
      invariant 0 <= k <= |ordered| && |toClose| == k
      invariant running == Left(xs, ordered, k) > base
      invariant forall m :: 0 <= m < k ==> Left(xs, ordered, m) > base
      invariant forall a :: 0 <= a < k ==> toClose[a] == xs[ordered[a]].positionId
    {
      var row := xs[ordered[k]];
      LeftNext(xs, priority, ordered, k);
      toClose := toClose + [row.positionId];
      running := running - row.value;
      k := k + 1;
      if running <= base { break; }
    }
  }

  /**
   The legacy loop: close one position, then add up again what is still open. `filled` lists the rows
   closed, in order; every close fills and prices do not move.
   */
  method LegacyMarginClose(xs: seq<Exposure>, base: real, priority: seq<string>) returns (filled: seq<nat>)
    ensures IsCut(xs, PriorityOrder(xs, priority), base, |filled|)
    ensures filled == PriorityOrder(xs, priority)[..|filled|]
  {
    filled := CloseUntil(xs, base, PriorityOrder(xs, priority));
  }

  method CloseUntil(xs: seq<Exposure>, base: real, ordered: seq<nat>) returns (filled: seq<nat>)
    ensures IsCut(xs, ordered, base, |filled|)
    ensures filled == ordered[..|filled|]
  {
    var totalEval := Resum(xs, {});
    assert AsSet(ordered[..0]) == {};
    filled := [];
    if totalEval <= base { return; }
    var closed, k := {}, 0;
    while k < |ordered|
      invariant 0 <= k <= |ordered| && filled == ordered[..k]
      invariant closed == AsSet(ordered[..k])
      invariant forall m :: 0 <= m <= k ==> Left(xs, ordered, m) > base
    {
      AsSetNext(ordered, k);
      filled := filled + [ordered[k]];
      closed := closed + {ordered[k]};
      k := k + 1;
      var recalculated := Resum(xs, closed);
      if recalculated <= base { break; }
    }
  }

  method Resum(xs: seq<Exposure>, closed: set<nat>) returns (sum: real)
    ensures sum == OpenValue(xs, closed, |xs|)
  {
    sum := 0.0;
    for i := 0 to |xs|
      invariant sum == OpenValue(xs, closed, i)
    {
      if i !in closed { sum := sum + xs[i].value; }
    }
  }

  /** Both loops choose the same rows: a cut is unique, and no shorter prefix would have been enough. */
  lemma CutIsShortest(xs: seq<Exposure>, idx: seq<nat>, base: real, k: nat, m: nat)
    requires IsCut(xs, idx, base, k) && m <= |idx|
    ensures Left(xs, idx, m) <= base ==> k <= m
    ensures IsCut(xs, idx, base, m) ==> k == m
  {
  }

  /** No priority inversion: whatever is left open comes after everything that was closed. */
  lemma NoInversion(xs: seq<Exposure>, priority: seq<string>, k: nat, i: nat, j: nat)
    requires k <= |PriorityOrder(xs, priority)| && i < |xs| && j < |xs|
    requires i in PriorityOrder(xs, priority)[..k] && j !in PriorityOrder(xs, priority)[..k]
    ensures Before(xs, priority, i, j)
  {
    var idx := PriorityOrder(xs, priority);
    var a :| 0 <= a < k && idx[a] == i;
    assert j in idx;
    var b :| 0 <= b < |idx| && idx[b] == j;
    assert forall c :: 0 <= c < k ==> idx[c] in idx[..k];
  }

  /** The running-subtraction engine names exactly the rows that the legacy loop closes, in the same order. */
  lemma EnginesAgree(xs: seq<Exposure>, base: real, priority: seq<string>, toClose: seq<int>, filled: seq<nat>)
    requires var idx := PriorityOrder(xs, priority);
      && IsCut(xs, idx, base, |toClose|)
      && (forall a :: 0 <= a < |toClose| ==> toClose[a] == xs[idx[a]].positionId)
      && IsCut(xs, idx, base, |filled|)
      && filled == idx[..|filled|]
    ensures |toClose| == |filled|
    ensures forall a :: 0 <= a < |filled| ==> filled[a] < |xs| && toClose[a] == xs[filled[a]].positionId
  {
    CutIsShortest(xs, PriorityOrder(xs, priority), base, |toClose|, |filled|);
  }

  function Values(xs: seq<Exposure>): seq<real> {
    seq(|xs|, i requires 0 <= i < |xs| => xs[i].value)
  }

  /** The values of the first k rows of an order. */
  function ValuesInOrder(xs: seq<Exposure>, idx: seq<nat>, k: nat): seq<real>
    requires k <= |idx| && forall a :: 0 <= a < |idx| ==> idx[a] < |xs|
  {
    seq(k, a requires 0 <= a < k && k <= |idx| && (forall b :: 0 <= b < |idx| ==> idx[b] < |xs|) => xs[idx[a]].value)
  }

  lemma {:induction false} AllOpen(xs: seq<Exposure>, n: nat)
    requires n <= |xs|
    ensures OpenValue(xs, {}, n) == Sum(Values(xs)[..n])
  {
    if n > 0 {
      AllOpen(xs, n - 1);
      assert Values(xs)[..n] == Values(xs)[..n - 1] + [xs[n - 1].value];
      SumSnoc(Values(xs)[..n - 1], xs[n - 1].value);
    }
  }

  /** The exposure left is the sum of all values minus the sum of the values closed. */
  lemma {:induction false} LeftIsSum(xs: seq<Exposure>, priority: seq<string>, idx: seq<nat>, k: nat)
    requires InStableOrder(xs, priority, idx) && k <= |idx|
    ensures Left(xs, idx, k) == Sum(Values(xs)) - Sum(ValuesInOrder(xs, idx, k))
  {
    if k == 0 {
      AllOpen(xs, |xs|);
      assert Values(xs)[..|xs|] == Values(xs);
      assert AsSet(idx[..0]) == {};
    } else {
      LeftIsSum(xs, priority, idx, k - 1);
      LeftNext(xs, priority, idx, k - 1);
      assert ValuesInOrder(xs, idx, k) == ValuesInOrder(xs, idx, k - 1) + [xs[idx[k - 1]].value];
      SumSnoc(ValuesInOrder(xs, idx, k - 1), xs[idx[k - 1]].value);
    }
  }
}
