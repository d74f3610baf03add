/** Time-weighted return, the equity curve and the service that reads and writes the tables (app/services/performance.py). */
module PerformanceService {
  import opened Prelude
  import opened Performance

  /* ---- Time-weighted return ---- */

  /** Assets at the end of period k without the flows of that period, per unit of assets at its start. */
  function Gross(ss: seq<Snapshot>, fs: seq<Flow>, k: nat): real
    requires 0 < k < |ss| && ss[k - 1].assets > 0.0
  {
    GrossOf(ss[k].assets, FlowsWithin(fs, ss[k - 1].time, ss[k].time), ss[k - 1].assets)
  }

  function GrossOf(assets: real, flow: real, previous: real): real
    requires previous > 0.0
  {
    (assets - flow) / previous
  }

  /** One more period compounded; a gross return below zero counts as a total loss. */
  function Chain(compound: real, gross: real): real {
    compound * Max(gross, 0.0)
  }

  /** Compounded gross returns over the first n snapshots; periods that start without assets are skipped. */
  function Compound(ss: seq<Snapshot>, fs: seq<Flow>, n: nat): real
    requires n <= |ss|
  {
    if n <= 1 then 1.0
    else
      var before := Compound(ss, fs, n - 1);
      if ss[n - 2].assets <= 0.0 then before else Chain(before, Gross(ss, fs, n - 1))
  }

  /** The report's loop over neighbouring snapshots. */
  method ComputeTwr(ss: seq<Snapshot>, fs: seq<Flow>) returns (twr: real)
    ensures twr == Compound(ss, fs, |ss|) - 1.0
  {
    var compound, k := 1.0, 1;
    while k < |ss|
      invariant k >= 1 && (k <= |ss| || k == 1)
      invariant k <= |ss| ==> compound == Compound(ss, fs, k)
      invariant k > |ss| ==> compound == 1.0
    {
      if ss[k - 1].assets > 0.0 {
        var flow := FlowsWithin(fs, ss[k - 1].time, ss[k].time);
        compound := Chain(compound, GrossOf(ss[k].assets, flow, ss[k - 1].assets));
      }
      k := k + 1;
    }
    twr := compound - 1.0;
  }

  datatype Item = Item(time: int, assets: real, cumulativePnl: real, periodReturn: real, twr: real)

  /** Assets with all flows up to that moment taken out. */
  function Adjusted(ss: seq<Snapshot>, fs: seq<Flow>, k: nat): real
    requires k < |ss|
  {
    ss[k].assets - FlowsUpTo(fs, ss[k].time)
  }

  /** One point of the equity curve. */
  function ItemAt(ss: seq<Snapshot>, fs: seq<Flow>, k: nat): Item
    requires k < |ss|
  {
    Item(ss[k].time, ss[k].assets, Adjusted(ss, fs, k) - Adjusted(ss, fs, 0),
         if k > 0 && ss[k - 1].assets > 0.0 then Gross(ss, fs, k) - 1.0 else 0.0,
         Compound(ss, fs, k + 1) - 1.0)
  }

  /** In a sorted list, a prefix that stops at the first later flow holds exactly the flows up to a time. */
  lemma {:induction false} PrefixIsUpTo(fs: seq<Flow>, n: nat, t: int)
    requires FlowsSorted(fs) && n <= |fs|
    requires forall i :: 0 <= i < n ==> fs[i].time <= t
    requires n < |fs| ==> fs[n].time > t
    ensures TotalFlow(fs[..n]) == FlowsUpTo(fs, t)
  {
    if n == |fs| {
      assert fs[..n] == fs;
      AllUpTo(fs, t);
    } else {
      var m := |fs| - 1;
      assert fs[..m][..n] == fs[..n];
      PrefixIsUpTo(fs[..m], n, t);
    }
  }

  lemma {:induction false} AllUpTo(fs: seq<Flow>, t: int)
    requires forall i :: 0 <= i < |fs| ==> fs[i].time <= t
    ensures TotalFlow(fs) == FlowsUpTo(fs, t)
  {
    if fs != [] { AllUpTo(fs[..|fs| - 1], t); }
  }

  /** The curve's single pass with its two indices. */
  method EquityCurve(ss: seq<Snapshot>, fs: seq<Flow>) returns (items: seq<Item>, twr: real)
    requires SnapshotsSorted(ss) && FlowsSorted(fs)
    ensures |items| == |ss| && forall k :: 0 <= k < |ss| ==> items[k] == ItemAt(ss, fs, k)
    ensures twr == Compound(ss, fs, |ss|) - 1.0
  {
    var cfIdx, cumulativeFlow, baseline, compound := 0, 0.0, 0.0, 1.0;
    items := [];
    for k := 0 to |ss|
      invariant |items| == k && forall i :: 0 <= i < k ==> items[i] == ItemAt(ss, fs, i)
      invariant 0 <= cfIdx <= |fs| && cumulativeFlow == TotalFlow(fs[..cfIdx])
      invariant cfIdx > 0 ==> k > 0 && fs[cfIdx - 1].time <= ss[k - 1].time
      invariant k > 0 ==> baseline == Adjusted(ss, fs, 0)
      invariant compound == Compound(ss, fs, k)
    {
      var snap := ss[k];
      while cfIdx < |fs| && fs[cfIdx].time <= snap.time
        invariant 0 <= cfIdx <= |fs| && cumulativeFlow == TotalFlow(fs[..cfIdx])
        invariant cfIdx > 0 ==> fs[cfIdx - 1].time <= snap.time
      {
        assert fs[..cfIdx + 1][..cfIdx] == fs[..cfIdx];
        cumulativeFlow := cumulativeFlow + fs[cfIdx].amount;
        cfIdx := cfIdx + 1;
      }
      PrefixIsUpTo(fs, cfIdx, snap.time);
      var adjusted := snap.assets - cumulativeFlow;
      if k == 0 { baseline := adjusted; }
      var periodReturn := 0.0;
      if k > 0 && ss[k - 1].assets > 0.0 {
        var gross := GrossOf(snap.assets, FlowsWithin(fs, ss[k - 1].time, snap.time), ss[k - 1].assets);
        periodReturn := gross - 1.0;
        compound := Chain(compound, gross);
      }
      items := items + [Item(snap.time, snap.assets, adjusted - baseline, periodReturn, compound - 1.0)];
    }
    twr := compound - 1.0;
  }

  /** Growth factors multiplied together. */
  function Growth(rs: seq<real>, n: nat): real
    requires n <= |rs|
  {
    if n == 0 then 1.0 else Grown(Growth(rs, n - 1), 1.0 + rs[n - 1])
  }

  function Grown(x: real, factor: real): real {
    x * factor
  }

  /** Assets grow by r[k] in period k and then receive that period's flows. */
  ghost predicate GrowsBy(ss: seq<Snapshot>, fs: seq<Flow>, rs: seq<real>) {
    && |ss| == |rs| + 1
    && (forall k :: 0 <= k < |ss| ==> ss[k].assets > 0.0)
    && (forall k :: 0 <= k < |rs| ==> 1.0 + rs[k] >= 0.0)
    && (forall k :: 0 <= k < |rs| ==>
         ss[k + 1].assets == Grown(ss[k].assets, 1.0 + rs[k]) + FlowsWithin(fs, ss[k].time, ss[k + 1].time))
  }

  lemma GrossIsGrowth(assets: real, flow: real, previous: real, g: real)
    requires previous > 0.0 && assets == previous * g + flow
    ensures GrossOf(assets, flow, previous) == g
  {
    assert (assets - flow) == previous * g;
  }

  /** One period compounded, on plain numbers. */
  lemma PeriodGrowth(compound: real, assets: real, flow: real, previous: real, g: real)
    requires previous > 0.0 && g >= 0.0 && assets == Grown(previous, g) + flow
    ensures Chain(compound, GrossOf(assets, flow, previous)) == Grown(compound, g)
  {
    GrossIsGrowth(assets, flow, previous, g);
  }

  /** Time-weighted return is the compounded growth whatever the flows were. */
  lemma {:induction false} TwrIgnoresFlows(ss: seq<Snapshot>, fs: seq<Flow>, rs: seq<real>, n: nat)
    requires GrowsBy(ss, fs, rs) && n <= |rs|
    ensures Compound(ss, fs, n + 1) == Growth(rs, n)
  {
    if n > 0 {
      TwrIgnoresFlows(ss, fs, rs, n - 1);
      PeriodGrowth(Growth(rs, n - 1), ss[n].assets, FlowsWithin(fs, ss[n - 1].time, ss[n].time), ss[n - 1].assets,
                   1.0 + rs[n - 1]);
    }
  }

  /** At every point the curve shows that growth: the period's own return, and all of it compounded. */
  lemma CurveShowsGrowth(ss: seq<Snapshot>, fs: seq<Flow>, rs: seq<real>, k: nat)
    requires GrowsBy(ss, fs, rs) && 0 < k <= |rs|
    ensures ItemAt(ss, fs, k).periodReturn == rs[k - 1] && ItemAt(ss, fs, k).twr == Growth(rs, k) - 1.0
  {
    TwrIgnoresFlows(ss, fs, rs, k);
    GrossIsGrowth(ss[k].assets, FlowsWithin(fs, ss[k - 1].time, ss[k].time), ss[k - 1].assets, 1.0 + rs[k - 1]);
  }

  /** Once flows alone make up the assets, or more than those, everything is lost for good. */
  lemma {:induction false} WipeOutStays(ss: seq<Snapshot>, fs: seq<Flow>, k: nat, n: nat)
    requires 0 < k < n <= |ss| && ss[k - 1].assets > 0.0
    requires ss[k].assets <= FlowsWithin(fs, ss[k - 1].time, ss[k].time)
    ensures Compound(ss, fs, n) == 0.0
  {
    if k == n - 1 {
      NoGrossLeft(Compound(ss, fs, k), ss[k].assets, FlowsWithin(fs, ss[k - 1].time, ss[k].time), ss[k - 1].assets);
    } else {
      WipeOutStays(ss, fs, k, n - 1);
    }
  }

  lemma NoGrossLeft(compound: real, assets: real, flow: real, previous: real)
    requires previous > 0.0 && assets <= flow
    ensures Chain(compound, GrossOf(assets, flow, previous)) == 0.0
  {
    DivMono(assets - flow, 0.0, previous);
  }

  /** A period that starts without assets does not change the return. */
  lemma EmptyStartIsSkipped(ss: seq<Snapshot>, fs: seq<Flow>, n: nat)
    requires 1 < n <= |ss| && ss[n - 2].assets <= 0.0
    ensures Compound(ss, fs, n) == Compound(ss, fs, n - 1)
  {
  }

  /** The curve's profit is asset growth since the first snapshot without the flows since then. */
  lemma CurveProfit(ss: seq<Snapshot>, fs: seq<Flow>, k: nat)
    requires SnapshotsSorted(ss) && k < |ss|
    ensures ItemAt(ss, fs, k).cumulativePnl
            == ss[k].assets - ss[0].assets - FlowsWithin(fs, ss[0].time, ss[k].time)
  {
    FlowsTelescope(fs, ss[0].time, ss[k].time);
  }

  /* ---- The service ---- */

  datatype Report = Report(twr: real, periods: nat, flowCount: nat, cumulativePnl: real, realizedPnl: real, drift: real)

  lemma DetectOne(trades: seq<Trade>, ss: seq<Snapshot>, table: seq<Flow>, threshold: real, k: nat, before: seq<Flow>)
    requires 0 < k < |ss| && before == Detected(trades, ss, table, threshold, k)
    ensures Detected(trades, ss, table, threshold, k + 1)
            == if Abs(Inferred(trades, ss, k)) < threshold || HasFlowNear(before, ss[k].time) then before
               else before + [AutoFlow(trades, ss, k)]
  {
  }

  predicate IsReport(r: Report, trades: seq<Trade>, ss: seq<Snapshot>, fs: seq<Flow>) {
    && r.drift == Drift(trades, ss, fs) == r.cumulativePnl - r.realizedPnl
    && r.flowCount == |fs| && r.periods == (if ss == [] then 0 else |ss| - 1)
    && (|ss| < 2 ==> r.twr == 0.0 && r.cumulativePnl == 0.0)
    && (|ss| >= 2 ==> r.twr == Compound(ss, fs, |ss|) - 1.0
                      && r.cumulativePnl == ss[|ss| - 1].assets - ss[0].assets - TotalFlow(fs))
  }

  method BuildReport(trades: seq<Trade>, ss: seq<Snapshot>, fs: seq<Flow>) returns (r: Report)
    ensures IsReport(r, trades, ss, fs)
  {
    if |ss| < 2 {
      return Report(0.0, if |ss| == 0 then 0 else |ss| - 1, |fs|, 0.0, 0.0, 0.0);
    }
    var last := |ss| - 1;
    var twr := ComputeTwr(ss, fs);
    var cumulativePnl := ss[last].assets - ss[0].assets - TotalFlow(fs);
    var realized := RealizedPnl(trades, ss[0].time, ss[last].time);
    r := Report(twr, last, |fs|, cumulativePnl, realized, cumulativePnl - realized);
  }

  /** The report's realised profit is the sum of the profits of the trades closed in the snapshot span. */
  lemma ReportShowsProfits(r: Report, trades: seq<Trade>, ss: seq<Snapshot>, fs: seq<Flow>)
    requires IsReport(r, trades, ss, fs) && |ss| >= 2
    ensures r.realizedPnl == Sum(Profits(trades, ss[0].time, ss[|ss| - 1].time))
    ensures r.drift == ss[|ss| - 1].assets - ss[0].assets - TotalFlow(fs) - r.realizedPnl
  {
    RealizedIsSum(trades, ss[0].time, ss[|ss| - 1].time);
  }

  class PerformanceLedger {
    var snapshots: seq<Snapshot>
    var flows: seq<Flow>
    var trades: seq<Trade>

    constructor ()
      ensures snapshots == [] && flows == [] && trades == []
    {
      snapshots, flows, trades := [], [], [];
    }

    method CreateSnapshot(s: Snapshot)
      modifies this`snapshots
      ensures snapshots == old(snapshots) + [s]
    {
      snapshots := snapshots + [s];
    }

    method CreateCashFlow(f: Flow)
      modifies this`flows
      ensures flows == old(flows) + [f]
    {
      flows := flows + [f];
    }

    /** Walks the listed snapshots and stores the inferred flows that are large and not already there. */
    method DetectCashFlows(range: Range, threshold: real) returns (created: nat)
      modifies this`flows
      ensures var ss := ListSnapshots(snapshots, range);
        flows == Detected(trades, ss, old(flows), threshold, |ss|)
      ensures created == |flows| - |old(flows)|
    {
      var ss := ListSnapshots(snapshots, range);
      created := 0;
      if |ss| < 2 { return; }
      for k := 1 to |ss|
        invariant flows == Detected(trades, ss, old(flows), threshold, k)
        invariant created == |flows| - |old(flows)|
      {
        DetectOne(trades, ss, old(flows), threshold, k, flows);
        var recorded := DetectPeriod(ss, k, threshold);
        created := created + (if recorded then 1 else 0);
      }
    }

    /** Stores the inferred flow of period k if it is large and no flow is stored near its end. */
    method DetectPeriod(ss: seq<Snapshot>, k: nat, threshold: real) returns (recorded: bool)
      requires 0 < k < |ss|
      modifies this`flows
      ensures recorded <==> Abs(Inferred(trades, ss, k)) >= threshold && !HasFlowNear(old(flows), ss[k].time)
      ensures flows == if recorded then old(flows) + [AutoFlow(trades, ss, k)] else old(flows)
    {
      var pnl := RealizedPnl(trades, ss[k - 1].time, ss[k].time);
      var inferred := (ss[k].assets - ss[k - 1].assets) - pnl;
      if Abs(inferred) < threshold { return false; }
      if HasFlowNear(flows, ss[k].time) { return false; }
      CreateCashFlow(Flow(ss[k].time, inferred, ss[k].assets - inferred, ss[k].assets, true));
      recorded := true;
    }

    method TwrReport(range: Range) returns (r: Report)
      ensures IsReport(r, trades, ListSnapshots(snapshots, range), ListFlows(flows, range))
    {
      r := BuildReport(trades, ListSnapshots(snapshots, range), ListFlows(flows, range));
    }

    method Curve(range: Range) returns (items: seq<Item>, twr: real)
      ensures var ss, fs := ListSnapshots(snapshots, range), ListFlows(flows, range);
        && twr == Compound(ss, fs, |ss|) - 1.0
        && |items| == |ss| && forall k :: 0 <= k < |ss| ==> items[k] == ItemAt(ss, fs, k)
    {
      items, twr := EquityCurve(ListSnapshots(snapshots, range), ListFlows(flows, range));
    }
  }

  /**
   The curve's last cumulative pnl is the report's exactly when the listed flows outside the snapshot span
   add up to nothing.
   */
  lemma CurveMatchesReport(ss: seq<Snapshot>, fs: seq<Flow>)
    requires |ss| >= 2 && SnapshotsSorted(ss)
    ensures var last := |ss| - 1;
      ItemAt(ss, fs, last).cumulativePnl == ss[last].assets - ss[0].assets - TotalFlow(fs)
      <==> TotalFlow(fs) - FlowsWithin(fs, ss[0].time, ss[last].time) == 0.0
  {
    FlowsTelescope(fs, ss[0].time, ss[|ss| - 1].time);
  }

  /** In particular they agree when every listed flow lies in the span, first snapshot excluded. */
  lemma {:induction false} FlowsInSpan(fs: seq<Flow>, a: int, b: int)
    requires forall i :: 0 <= i < |fs| ==> a < fs[i].time <= b
    ensures TotalFlow(fs) == FlowsWithin(fs, a, b)
  {
    if fs != [] { FlowsInSpan(fs[..|fs| - 1], a, b); }
  }

  /** They differ when a flow is listed from before the first snapshot. */
  lemma EarlyFlowSplitsThem() returns (ss: seq<Snapshot>, fs: seq<Flow>)
    ensures |ss| == 2 && |fs| == 1 && SnapshotsSorted(ss) && FlowsSorted(fs)
    ensures ItemAt(ss, fs, 1).cumulativePnl == 5.0 && ss[1].assets - ss[0].assets - TotalFlow(fs) == -5.0
  {
    ss := [Snapshot(10, 100.0), Snapshot(20, 105.0)];
    fs := [Flow(5, 10.0, 0.0, 10.0, false)];
    assert fs[..0] == [];
    assert TotalFlow(fs) == 10.0 && FlowsUpTo(fs, 10) == 10.0 && FlowsUpTo(fs, 20) == 10.0;
  }
}
