/** Account snapshots, cash flows and time-weighted return (app/services/performance.py, app/repositories/performance.py). */
module Performance {
  import opened Prelude

  datatype Snapshot = Snapshot(time: int, assets: real)

  datatype Flow = Flow(time: int, amount: real, before: real, after: real, auto: bool)

  datatype Trade = Trade(createdAt: int, exitPrice: Option<real>, pnl: Option<real>)

  /** An optional inclusive time range. */
  datatype Range = Range(start: Option<int>, end: Option<int>) {
    predicate Contains(t: int) {
      (start.Some? ==> start.value <= t) && (end.Some? ==> t <= end.value)
    }
  }

  /** 90 seconds, in microseconds. */
  const TOLERANCE := 90_000_000

  /* ---- Queries ---- */

  ghost predicate SnapshotsSorted(ss: seq<Snapshot>) {
    forall i, j :: 0 <= i <= j < |ss| ==> ss[i].time <= ss[j].time
  }

  ghost predicate FlowsSorted(fs: seq<Flow>) {
    forall i, j :: 0 <= i <= j < |fs| ==> fs[i].time <= fs[j].time
  }

  /** Insert behind every snapshot that is not later. */
  function InsertSnapshot(ss: seq<Snapshot>, s: Snapshot): (r: seq<Snapshot>)
    requires SnapshotsSorted(ss)
    ensures SnapshotsSorted(r) && forall x :: x in r <==> x in ss || x == s
  {
    if ss == [] || ss[|ss| - 1].time <= s.time then ss + [s]
    else
      var n := |ss| - 1;
      assert ss == ss[..n] + [ss[n]];
      var r := InsertSnapshot(ss[..n], s);
      assert forall i :: 0 <= i < |r| ==> r[i] in r;
      r + [ss[n]]
  }

  /** The stored snapshots of a range, ordered by time. */
  function ListSnapshots(table: seq<Snapshot>, range: Range): (r: seq<Snapshot>)
    ensures SnapshotsSorted(r)
    ensures forall x :: x in r <==> x in table && range.Contains(x.time)
  {
    if table == [] then []
    else
      var n := |table| - 1;
      var rest := ListSnapshots(table[..n], range);
      assert table == table[..n] + [table[n]];
      if range.Contains(table[n].time) then InsertSnapshot(rest, table[n]) else rest
  }

  function InsertFlow(fs: seq<Flow>, f: Flow): (r: seq<Flow>)
    requires FlowsSorted(fs)
    ensures FlowsSorted(r) && forall x :: x in r <==> x in fs || x == f
  {
    if fs == [] || fs[|fs| - 1].time <= f.time then fs + [f]
    else
      var n := |fs| - 1;
      assert fs == fs[..n] + [fs[n]];
      var r := InsertFlow(fs[..n], f);
      assert forall i :: 0 <= i < |r| ==> r[i] in r;
      r + [fs[n]]
  }

  function ListFlows(table: seq<Flow>, range: Range): (r: seq<Flow>)
    ensures FlowsSorted(r)
    ensures forall x :: x in r <==> x in table && range.Contains(x.time)
  {
    if table == [] then []
    else
      var n := |table| - 1;
      var rest := ListFlows(table[..n], range);
      assert table == table[..n] + [table[n]];
      if range.Contains(table[n].time) then InsertFlow(rest, table[n]) else rest
  }

  lemma {:induction false} InsertSnapshotAdds(ss: seq<Snapshot>, s: Snapshot)
    requires SnapshotsSorted(ss)
    ensures multiset(InsertSnapshot(ss, s)) == multiset(ss) + multiset{s}
  {
    if !(ss == [] || ss[|ss| - 1].time <= s.time) {
      var n := |ss| - 1;
      InsertSnapshotAdds(ss[..n], s);
      assert ss == ss[..n] + [ss[n]];
    }
  }

  /** Every snapshot of the range is listed as often as it is stored, and no other. */
  lemma {:induction false} ListsEachSnapshot(table: seq<Snapshot>, range: Range, x: Snapshot)
    ensures var within := (range.start.None? || range.start.value <= x.time) && (range.end.None? || x.time <= range.end.value);
      multiset(ListSnapshots(table, range))[x] == if within then multiset(table)[x] else 0
  {
    if table != [] {
      var n := |table| - 1;
      ListsEachSnapshot(table[..n], range, x);
      var rest := ListSnapshots(table[..n], range);
      InsertSnapshotAdds(rest, table[n]);
      assert multiset(table) == multiset(table[..n]) + multiset{table[n]} by { assert table == table[..n] + [table[n]]; }
      assert ListSnapshots(table, range) == if range.Contains(table[n].time) then InsertSnapshot(rest, table[n]) else rest;
    }
  }

  lemma {:induction false} InsertFlowAdds(fs: seq<Flow>, f: Flow)
    requires FlowsSorted(fs)
    ensures multiset(InsertFlow(fs, f)) == multiset(fs) + multiset{f}
  {
    if !(fs == [] || fs[|fs| - 1].time <= f.time) {
      var n := |fs| - 1;
      InsertFlowAdds(fs[..n], f);
      assert fs == fs[..n] + [fs[n]];
    }
  }

  /** Every flow of the range is listed as often as it is stored, and no other. */
  lemma {:induction false} ListsEachFlow(table: seq<Flow>, range: Range, x: Flow)
    ensures var within := (range.start.None? || range.start.value <= x.time) && (range.end.None? || x.time <= range.end.value);
      multiset(ListFlows(table, range))[x] == if within then multiset(table)[x] else 0
  {
    if table != [] {
      var n := |table| - 1;
      ListsEachFlow(table[..n], range, x);
      var rest := ListFlows(table[..n], range);
      InsertFlowAdds(rest, table[n]);
      assert multiset(table) == multiset(table[..n]) + multiset{table[n]} by { assert table == table[..n] + [table[n]]; }
      assert ListFlows(table, range) == if range.Contains(table[n].time) then InsertFlow(rest, table[n]) else rest;
    }
  }

  /** A flow is stored within the tolerance of a time. */
  predicate HasFlowNear(table: seq<Flow>, time: int) {
    exists i :: 0 <= i < |table| && time - TOLERANCE <= table[i].time <= time + TOLERANCE
  }

  /** Realised pnl of the closed trades created in (start, end]. */
  function RealizedPnl(trades: seq<Trade>, start: int, end: int): real {
    if trades == [] then 0.0
    else
      var n := |trades| - 1;
      RealizedPnl(trades[..n], start, end) + (if Counts(trades[n], start, end) then trades[n].pnl.value else 0.0)
  }

  predicate Counts(t: Trade, start: int, end: int) {
    t.exitPrice.Some? && t.pnl.Some? && start < t.createdAt <= end
  }

  /** Sum of the flows in (start, end]. */
  function FlowsWithin(fs: seq<Flow>, start: int, end: int): real {
    if fs == [] then 0.0
    else
      var n := |fs| - 1;
      FlowsWithin(fs[..n], start, end) + (if start < fs[n].time <= end then fs[n].amount else 0.0)
  }

  /** Sum of the flows up to and including a time. */
  function FlowsUpTo(fs: seq<Flow>, end: int): real {
    if fs == [] then 0.0
    else
      var n := |fs| - 1;
      FlowsUpTo(fs[..n], end) + (if fs[n].time <= end then fs[n].amount else 0.0)
  }

  function TotalFlow(fs: seq<Flow>): real {
    if fs == [] then 0.0 else TotalFlow(fs[..|fs| - 1]) + fs[|fs| - 1].amount
  }

  lemma {:induction false} PnlTelescopes(trades: seq<Trade>, a: int, b: int, c: int)
    requires a <= b <= c
    ensures RealizedPnl(trades, a, b) + RealizedPnl(trades, b, c) == RealizedPnl(trades, a, c)
  {
    if trades != [] { PnlTelescopes(trades[..|trades| - 1], a, b, c); }
  }

  lemma {:induction false} FlowsTelescope(fs: seq<Flow>, a: int, b: int)
    requires a <= b
    ensures FlowsUpTo(fs, a) + FlowsWithin(fs, a, b) == FlowsUpTo(fs, b)
  {
    if fs != [] { FlowsTelescope(fs[..|fs| - 1], a, b); }
  }

  /* ---- Cash-flow detection ---- */

  /** What a period between two snapshots leaves unexplained by trades. */
  function Inferred(trades: seq<Trade>, ss: seq<Snapshot>, k: nat): real
    requires 0 < k < |ss|
  {
    (ss[k].assets - ss[k - 1].assets) - RealizedPnl(trades, ss[k - 1].time, ss[k].time)
  }

  function AutoFlow(trades: seq<Trade>, ss: seq<Snapshot>, k: nat): Flow
    requires 0 < k < |ss|
  {
    var x := Inferred(trades, ss, k);
    Flow(ss[k].time, x, ss[k].assets - x, ss[k].assets, true)
  }

  /** The flow table after the periods ending at snapshots 1..n have been examined. */
  function Detected(trades: seq<Trade>, ss: seq<Snapshot>, table: seq<Flow>, threshold: real, n: nat): seq<Flow>
    requires n <= |ss|
    decreases n, 0
  {
    if n <= 1 then table
    else
      var before := Detected(trades, ss, table, threshold, n - 1);
      if Records(trades, ss, table, threshold, n - 1) then before + [AutoFlow(trades, ss, n - 1)] else before
  }

  /** Period k is recorded: its flow is large enough and none is stored near its end. */
  predicate Records(trades: seq<Trade>, ss: seq<Snapshot>, table: seq<Flow>, threshold: real, k: nat)
    requires 0 < k < |ss|
    decreases k, 1
  {
    Abs(Inferred(trades, ss, k)) >= threshold && !HasFlowNear(Detected(trades, ss, table, threshold, k), ss[k].time)
  }

  lemma {:induction false} DetectedGrows(trades: seq<Trade>, ss: seq<Snapshot>, table: seq<Flow>, threshold: real, m: nat, n: nat)
    requires m <= n <= |ss|
    ensures Detected(trades, ss, table, threshold, m) <= Detected(trades, ss, table, threshold, n)
  {
    if m < n { DetectedGrows(trades, ss, table, threshold, m, n - 1); }
  }

  lemma NearStays(table: seq<Flow>, table': seq<Flow>, time: int)
    requires table <= table' && HasFlowNear(table, time)
    ensures HasFlowNear(table', time)
  {
    var i :| 0 <= i < |table| && time - TOLERANCE <= table[i].time <= time + TOLERANCE;
    assert table'[i] == table[i];
  }

  /** After a run, every period is either below the threshold or has a flow near its end. */
  lemma SettledAfterRun(trades: seq<Trade>, ss: seq<Snapshot>, table: seq<Flow>, threshold: real, k: nat)
    requires 0 < k < |ss|
    ensures Abs(Inferred(trades, ss, k)) < threshold
            || HasFlowNear(Detected(trades, ss, table, threshold, |ss|), ss[k].time)
  {
    var before, after := Detected(trades, ss, table, threshold, k), Detected(trades, ss, table, threshold, k + 1);
    DetectedGrows(trades, ss, table, threshold, k, |ss|);
    DetectedGrows(trades, ss, table, threshold, k + 1, |ss|);
    if HasFlowNear(before, ss[k].time) {
      NearStays(before, Detected(trades, ss, table, threshold, |ss|), ss[k].time);
    } else if Abs(Inferred(trades, ss, k)) >= threshold {
      assert after[|before|].time == ss[k].time;
      NearStays(after, Detected(trades, ss, table, threshold, |ss|), ss[k].time);
    }
  }

  lemma {:induction false} NothingMore(trades: seq<Trade>, ss: seq<Snapshot>, table: seq<Flow>, threshold: real, n: nat)
    requires n <= |ss|
    requires forall k :: 0 < k < n ==> Abs(Inferred(trades, ss, k)) < threshold || HasFlowNear(table, ss[k].time)
    ensures Detected(trades, ss, table, threshold, n) == table
  {
    if n > 1 { NothingMore(trades, ss, table, threshold, n - 1); }
  }

  /** Detection is idempotent: an immediate second run with the same arguments creates nothing. */
  lemma DetectionIdempotent(trades: seq<Trade>, ss: seq<Snapshot>, table: seq<Flow>, threshold: real)
    ensures var once := Detected(trades, ss, table, threshold, |ss|); Detected(trades, ss, once, threshold, |ss|) == once
  {
    var once := Detected(trades, ss, table, threshold, |ss|);
    forall k | 0 < k < |ss| ensures Abs(Inferred(trades, ss, k)) < threshold || HasFlowNear(once, ss[k].time) {
      SettledAfterRun(trades, ss, table, threshold, k);
    }
    NothingMore(trades, ss, once, threshold, |ss|);
  }

  /** Every created flow is more than 90 seconds away from every other flow stored afterwards. */
  lemma {:induction false} CreatedFlowsApart(trades: seq<Trade>, ss: seq<Snapshot>, table: seq<Flow>, threshold: real,
                                             n: nat, i: nat, j: nat)
    requires n <= |ss|
    requires var r := Detected(trades, ss, table, threshold, n); i < |r| && |table| <= j < |r| && i != j
    ensures var r := Detected(trades, ss, table, threshold, n);
      r[i].time < r[j].time - 90_000_000 || r[i].time > r[j].time + 90_000_000
  {
    if n > 1 {
      var before := Detected(trades, ss, table, threshold, n - 1);
      DetectedGrows(trades, ss, table, threshold, 0, n - 1);
      if i < |before| && j < |before| { CreatedFlowsApart(trades, ss, table, threshold, n - 1, i, j); }
    }
  }

  /* ---- Drift ---- */

  /** Sum of the inferred flows of the periods up to n that were not recorded. */
  function Unrecorded(trades: seq<Trade>, ss: seq<Snapshot>, table: seq<Flow>, threshold: real, n: nat): real
    requires n <= |ss|
  {
    if n <= 1 then 0.0
    else
      Unrecorded(trades, ss, table, threshold, n - 1)
      + (if Records(trades, ss, table, threshold, n - 1) then 0.0 else Inferred(trades, ss, n - 1))
  }

  function UnrecordedCount(trades: seq<Trade>, ss: seq<Snapshot>, table: seq<Flow>, threshold: real, n: nat): nat
    requires n <= |ss|
  {
    if n <= 1 then 0
    else
      UnrecordedCount(trades, ss, table, threshold, n - 1) + (if Records(trades, ss, table, threshold, n - 1) then 0 else 1)
  }

  /** The account drift that the report computes from the listed snapshots and flows. */
  function Drift(trades: seq<Trade>, ss: seq<Snapshot>, flows: seq<Flow>): real {
    if |ss| < 2 then 0.0
    else
      (ss[|ss| - 1].assets - ss[0].assets - TotalFlow(flows)) - RealizedPnl(trades, ss[0].time, ss[|ss| - 1].time)
  }

  lemma {:induction false} TotalFlowInsert(fs: seq<Flow>, f: Flow)
    requires FlowsSorted(fs)
    ensures TotalFlow(InsertFlow(fs, f)) == TotalFlow(fs) + f.amount
  {
    if fs == [] || fs[|fs| - 1].time <= f.time {
      assert (fs + [f])[..|fs|] == fs;
    } else {
      var n := |fs| - 1;
      var rest := InsertFlow(fs[..n], f);
      TotalFlowInsert(fs[..n], f);
      assert (rest + [fs[n]])[..|rest|] == rest;
    }
  }

  lemma ListFlowsSnoc(table: seq<Flow>, f: Flow, range: Range)
    ensures ListFlows(table + [f], range)
            == if range.Contains(f.time) then InsertFlow(ListFlows(table, range), f) else ListFlows(table, range)
  {
    assert (table + [f])[..|table|] == table;
  }

  /** One period adds its inferred flow to the listed total exactly when it is recorded. */
  lemma ListedStep(trades: seq<Trade>, ss: seq<Snapshot>, table: seq<Flow>, threshold: real, range: Range, n: nat)
    requires 1 < n <= |ss| && range.Contains(ss[n - 1].time)
    ensures TotalFlow(ListFlows(Detected(trades, ss, table, threshold, n), range))
            == TotalFlow(ListFlows(Detected(trades, ss, table, threshold, n - 1), range))
               + if Records(trades, ss, table, threshold, n - 1) then Inferred(trades, ss, n - 1) else 0.0
  {
    var before := Detected(trades, ss, table, threshold, n - 1);
    if Records(trades, ss, table, threshold, n - 1) {
      ListFlowsSnoc(before, AutoFlow(trades, ss, n - 1), range);
      TotalFlowInsert(ListFlows(before, range), AutoFlow(trades, ss, n - 1));
    }
  }

  /** Asset growth up to snapshot n is trades, plus flows created, plus what went unrecorded. */
  lemma {:induction false} GrowthExplained(trades: seq<Trade>, ss: seq<Snapshot>, table: seq<Flow>, threshold: real,
                                           range: Range, n: nat)
    requires 0 < n <= |ss| && SnapshotsSorted(ss) && forall k :: 0 <= k < |ss| ==> range.Contains(ss[k].time)
    ensures ss[n - 1].assets - ss[0].assets
            == RealizedPnl(trades, ss[0].time, ss[n - 1].time)
               + (TotalFlow(ListFlows(Detected(trades, ss, table, threshold, n), range)) - TotalFlow(ListFlows(table, range)))
               + Unrecorded(trades, ss, table, threshold, n)
  {
    if n == 1 {
      EmptyPeriod(trades, ss[0].time);
    } else {
      GrowthExplained(trades, ss, table, threshold, range, n - 1);
      PnlTelescopes(trades, ss[0].time, ss[n - 2].time, ss[n - 1].time);
      ListedStep(trades, ss, table, threshold, range, n);
    }
  }

  lemma {:induction false} EmptyPeriod(trades: seq<Trade>, t: int)
    ensures RealizedPnl(trades, t, t) == 0.0
  {
    if trades != [] { EmptyPeriod(trades[..|trades| - 1], t); }
  }

  /**
   After detection over a range, the reported drift is exactly the inferred flows left unrecorded, minus
   the flows that were already listed before.
   */
  lemma DriftAfterDetection(trades: seq<Trade>, snapshots: seq<Snapshot>, table: seq<Flow>, threshold: real, range: Range)
    requires var ss := ListSnapshots(snapshots, range); |ss| >= 2
    ensures var ss := ListSnapshots(snapshots, range);
      var after := Detected(trades, ss, table, threshold, |ss|);
      Drift(trades, ss, ListFlows(after, range))
      == Unrecorded(trades, ss, table, threshold, |ss|) - TotalFlow(ListFlows(table, range))
  {
    var ss := ListSnapshots(snapshots, range);
    forall k | 0 <= k < |ss| ensures range.Contains(ss[k].time) { assert ss[k] in ss; }
    GrowthExplained(trades, ss, table, threshold, range, |ss|);
  }

  /** Snapshots more than 90 seconds apart, as consecutive neighbours. */
  ghost predicate WellSpaced(ss: seq<Snapshot>) {
    forall k :: 0 < k < |ss| ==> ss[k - 1].time + 90_000_000 < ss[k].time
  }

  /** With an empty table and well-spaced snapshots nothing stands near the end of a period not yet examined. */
  lemma {:induction false} NothingNearAhead(trades: seq<Trade>, ss: seq<Snapshot>, threshold: real, n: nat)
    requires 0 < n <= |ss| && SnapshotsSorted(ss) && WellSpaced(ss)
    ensures forall f :: f in Detected(trades, ss, [], threshold, n) ==> f.time <= ss[n - 1].time
  {
    if n > 1 { NothingNearAhead(trades, ss, threshold, n - 1); }
  }

  lemma {:induction false} UnrecordedSmall(trades: seq<Trade>, ss: seq<Snapshot>, threshold: real, n: nat)
    requires n <= |ss| && SnapshotsSorted(ss) && WellSpaced(ss) && threshold > 0.0
    ensures Abs(Unrecorded(trades, ss, [], threshold, n)) <= Times(UnrecordedCount(trades, ss, [], threshold, n), threshold)
  {
    if n > 1 {
      UnrecordedSmall(trades, ss, threshold, n - 1);
      NothingNearAhead(trades, ss, threshold, n - 1);
      assert !HasFlowNear(Detected(trades, ss, [], threshold, n - 1), ss[n - 1].time);
    }
  }

  /**
   Starting from an empty flow table and snapshots more than 90 seconds apart, the drift reported after
   detection is at most the threshold for each unrecorded period.
   */
  lemma DriftBounded(trades: seq<Trade>, snapshots: seq<Snapshot>, threshold: real, range: Range)
    requires var ss := ListSnapshots(snapshots, range); |ss| >= 2 && WellSpaced(ss)
    requires threshold > 0.0
    ensures var ss := ListSnapshots(snapshots, range);
      var after := Detected(trades, ss, [], threshold, |ss|);
      Abs(Drift(trades, ss, ListFlows(after, range))) <= Times(UnrecordedCount(trades, ss, [], threshold, |ss|), threshold)
  {
    var ss := ListSnapshots(snapshots, range);
    DriftAfterDetection(trades, snapshots, [], threshold, range);
    UnrecordedSmall(trades, ss, threshold, |ss|);
  }

  /* ---- End to end: trades and external flows ---- */

  /** The profits of the trades that were closed with a price and a profit and created in (start, end]. */
  function Profits(trades: seq<Trade>, start: int, end: int): seq<real> {
    if trades == [] then []
    else
      var n := |trades| - 1;
      Profits(trades[..n], start, end) +
      match trades[n]
      case Trade(at, Some(_), Some(profit)) => if start < at && at <= end then [profit] else []
      case _ => []
  }

  /** Realised profit is the sum of exactly those profits; open trades and other periods contribute nothing. */
  lemma {:induction false} RealizedIsSum(trades: seq<Trade>, start: int, end: int)
    ensures RealizedPnl(trades, start, end) == Sum(Profits(trades, start, end))
  {
    if trades != [] {
      var n := |trades| - 1;
      var before := Profits(trades[..n], start, end);
      RealizedIsSum(trades[..n], start, end);
      match trades[n]
      case Trade(at, Some(_), Some(profit)) => SumSnoc(before, profit); assert before + [] == before;
      case _ => assert before + [] == before;
    }
  }

  /** Assets move by the profits of each period's trades and by an external amount xs[k]. */
  ghost predicate MovesBy(trades: seq<Trade>, ss: seq<Snapshot>, xs: seq<real>) {
    && |xs| == |ss|
    && forall k :: 0 < k < |ss| ==>
         ss[k].assets == ss[k - 1].assets + Sum(Profits(trades, ss[k - 1].time, ss[k].time)) + xs[k]
  }

  /** The external amounts of periods 1..n that reach the threshold, as flows. */
  function LargeFlows(ss: seq<Snapshot>, xs: seq<real>, threshold: real, n: nat): seq<Flow>
    requires n <= |ss| == |xs|
  {
    if n <= 1 then []
    else
      var k := n - 1;
      LargeFlows(ss, xs, threshold, k) +
      if xs[k] >= threshold || -xs[k] >= threshold
      then [Flow(ss[k].time, xs[k], ss[k].assets - xs[k], ss[k].assets, true)] else []
  }

  lemma InfersExternal(trades: seq<Trade>, ss: seq<Snapshot>, xs: seq<real>, k: nat)
    requires MovesBy(trades, ss, xs) && 0 < k < |ss|
    ensures Inferred(trades, ss, k) == xs[k]
  {
    RealizedIsSum(trades, ss[k - 1].time, ss[k].time);
  }

  /** Detection on well-spaced snapshots stores exactly the external amounts that reach the threshold, and no profits. */
  lemma {:induction false} DetectsExternalFlows(trades: seq<Trade>, ss: seq<Snapshot>, xs: seq<real>, threshold: real, n: nat)
    requires n <= |ss| && SnapshotsSorted(ss) && WellSpaced(ss) && MovesBy(trades, ss, xs)
    ensures Detected(trades, ss, [], threshold, n) == LargeFlows(ss, xs, threshold, n)
  {
    if n > 1 {
      var k := n - 1;
      DetectsExternalFlows(trades, ss, xs, threshold, k);
      NothingNearAhead(trades, ss, threshold, k);
      assert !HasFlowNear(Detected(trades, ss, [], threshold, k), ss[k].time);
      InfersExternal(trades, ss, xs, k);
      DetectStep(trades, ss, xs, threshold, k);
    }
  }

  lemma DetectStep(trades: seq<Trade>, ss: seq<Snapshot>, xs: seq<real>, threshold: real, k: nat)
    requires 0 < k < |ss| == |xs| && Inferred(trades, ss, k) == xs[k]
    requires Detected(trades, ss, [], threshold, k) == LargeFlows(ss, xs, threshold, k)
    requires !HasFlowNear(Detected(trades, ss, [], threshold, k), ss[k].time)
    ensures Detected(trades, ss, [], threshold, k + 1) == LargeFlows(ss, xs, threshold, k + 1)
  {
    assert LargeFlows(ss, xs, threshold, k) + [] == LargeFlows(ss, xs, threshold, k);
  }

  /** No stored flow lies within 90 seconds of a time. */
  ghost predicate NoneWithin90Seconds(table: seq<Flow>, time: int) {
    forall i :: 0 <= i < |table| ==> table[i].time < time - 90_000_000 || table[i].time > time + 90_000_000
  }

  lemma NearMeaning(table: seq<Flow>, time: int)
    ensures HasFlowNear(table, time) <==> !NoneWithin90Seconds(table, time)
  {
  }

  /** A period is recorded exactly when its unexplained amount x is large and no flow lies within 90 seconds of its end. */
  lemma RecordsMeaning(trades: seq<Trade>, ss: seq<Snapshot>, table: seq<Flow>, threshold: real, k: nat, x: real)
    requires 0 < k < |ss|
    requires x == ss[k].assets - ss[k - 1].assets - Sum(Profits(trades, ss[k - 1].time, ss[k].time))
    ensures Records(trades, ss, table, threshold, k)
            <==> (x >= threshold || -x >= threshold) && NoneWithin90Seconds(Detected(trades, ss, table, threshold, k), ss[k].time)
  {
    RealizedIsSum(trades, ss[k - 1].time, ss[k].time);
    NearMeaning(Detected(trades, ss, table, threshold, k), ss[k].time);
    assert Inferred(trades, ss, k) == x;
  }
}
