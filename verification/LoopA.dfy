/** One position under Loop A (app/loops/loop_a_runtime.py): what every monitoring visit keeps, over whole runs. */
module LoopA {
  import opened Prelude
  import opened StateMachine

  /** Where storage fails during a visit, if it does. */
  datatype Fault = NoFault | SessionFault | InsertFault | UpdateFault

  /** What the outside world answers during one visit: price, trailing distance, order outcome, storage. */
  datatype Tick = Tick(price: real, trail: real, filled: bool, fault: Fault, now: int)

  /** A position with the bookkeeping the source leaves implicit. */
  datatype Ledger = Ledger(
    pos: Position,
    sells: seq<real>,      // quantities of the sell orders recorded for it
    brokerSold: real,      // quantity the broker confirmed as sold
    lost: real,            // quantity recorded as sold whose row update failed
    closes: nat,           // close orders that went through completely
    since: seq<real>,      // prices seen since, and including, the tick that took the half
    lastTrail: real)       // trailing distance of the last visit that was written to the row

  datatype Verdict = Quiet | ClosedNow | FailedNow

  predicate Rewrites(p: Position, t: Transition) {
    t.newHighest != p.highest || t.newTrailing != p.trailing
  }

  /** The row after one visit. */
  function VisitRow(p: Position, k: Tick): Position {
    var t := Decide(p, k.price, k.trail);
    if t.closeQty > 0.0 then (if k.filled && k.fault == NoFault then Applied(p, t, k.now) else p)
    else if Rewrites(p, t) && (k.fault == NoFault || k.fault == InsertFault) then Applied(p, t, k.now)
    else p
  }

  /** The sell order recorded by one visit, if any: it is committed before the row is touched. */
  function VisitSell(p: Position, k: Tick): Option<real> {
    var t := Decide(p, k.price, k.trail);
    if t.closeQty > 0.0 && k.filled && (k.fault == NoFault || k.fault == UpdateFault) then Some(t.closeQty) else None
  }

  /** How the visit is counted. */
  function VisitVerdict(p: Position, k: Tick): Verdict {
    var t := Decide(p, k.price, k.trail);
    if k.fault == SessionFault then FailedNow
    else if t.closeQty > 0.0 then
      if !k.filled || k.fault != NoFault then FailedNow
      else if t.newState == Closed then ClosedNow else Quiet
    else if Rewrites(p, t) && k.fault == UpdateFault then FailedNow
    else Quiet
  }

  function Visit(l: Ledger, k: Tick): Ledger {
    var p := l.pos;
    if p.state == Closed then l
    else
      var t := Decide(p, k.price, k.trail);
      var p' := VisitRow(p, k);
      var ordered := t.closeQty > 0.0 && k.filled && k.fault != SessionFault;
      Ledger(
        p',
        if VisitSell(p, k).Some? then l.sells + [VisitSell(p, k).value] else l.sells,
        if ordered then l.brokerSold + t.closeQty else l.brokerSold,
        if LosesUpdate(p, k) then l.lost + t.closeQty else l.lost,
        if t.closeQty > 0.0 && p' != p then l.closes + 1 else l.closes,
        if p.state == HalfClosed then l.since + [k.price] else if p'.state == HalfClosed then [k.price] else [],
        if p' != p then k.trail else l.lastTrail)
  }

  /** The sell went into the order table, but the position row was not updated. */
  predicate LosesUpdate(p: Position, k: Tick) {
    p.state != Closed && Decide(p, k.price, k.trail).closeQty > 0.0 && k.filled && k.fault == UpdateFault
  }

  function Start(p: Position): Ledger {
    Ledger(p, [], 0.0, 0.0, 0, [], 0.0)
  }

  /** The ledger after the first n ticks. */
  function Run(p: Position, ks: seq<Tick>, n: nat): Ledger
    requires n <= |ks|
  {
    if n == 0 then Start(p) else Visit(Run(p, ks, n - 1), ks[n - 1])
  }

  /** A row as open_position creates it. */
  predicate IsNew(p: Position) {
    p.state == Open && p.remaining == p.quantity && p.quantity >= 0.0 && p.closeReason == None
  }

  /* ---- Conservation ---- */

  /** Quantity is conserved up to lost updates; the remainder is the whole, a half or nothing. */
  ghost predicate Conserves(q: real, l: Ledger) {
    && l.pos.quantity == q
    && l.pos.remaining == (match l.pos.state case Open => q case HalfClosed => q / 2.0 case Closed => 0.0)
    && q + l.lost == l.pos.remaining + Sum(l.sells)
    && 0.0 <= l.lost
    && Sum(l.sells) <= l.brokerSold
    && l.closes <= (match l.pos.state case Open => 0 case HalfClosed => 1 case Closed => 2)
  }

  lemma VisitConserves(q: real, l: Ledger, k: Tick)
    requires q >= 0.0 && Conserves(q, l)
    ensures Conserves(q, Visit(l, k))
  {
    var sell := VisitSell(l.pos, k);
    if sell.Some? { SumSnoc(l.sells, sell.value); }
  }

  /**
   Over every run, with any prices, trailing distances, order outcomes and storage faults: quantity plus
   what lost updates re-sold equals the remainder plus all recorded sells; the remainder is q, q/2 or 0;
   and at most two closes ever go through.
   */
  lemma {:induction false} RunConserves(p: Position, ks: seq<Tick>, n: nat)
    requires IsNew(p) && n <= |ks|
    ensures Conserves(p.quantity, Run(p, ks, n)) && Run(p, ks, n).closes <= 2
  {
    if n > 0 {
      RunConserves(p, ks, n - 1);
      VisitConserves(p.quantity, Run(p, ks, n - 1), ks[n - 1]);
    }
  }

  lemma VisitLost(l: Ledger, k: Tick)
    ensures if LosesUpdate(l.pos, k) then Visit(l, k).lost > l.lost else Visit(l, k).lost == l.lost
  {
  }

  /** Visit number m of a run records a sell whose row update is lost. */
  predicate LosesAt(p: Position, ks: seq<Tick>, m: nat)
    requires m < |ks|
  {
    LosesUpdate(Run(p, ks, m).pos, ks[m])
  }

  lemma LostStep(p: Position, ks: seq<Tick>, n: nat)
    requires 0 < n <= |ks|
    ensures if LosesAt(p, ks, n - 1) then Run(p, ks, n).lost > Run(p, ks, n - 1).lost else Run(p, ks, n).lost == Run(p, ks, n - 1).lost
  {
    VisitLost(Run(p, ks, n - 1), ks[n - 1]);
  }

  lemma {:induction false} LostOnlyByFault(p: Position, ks: seq<Tick>, n: nat)
    requires n <= |ks|
    ensures Run(p, ks, n).lost >= 0.0
    ensures Run(p, ks, n).lost == 0.0 <==> forall m :: 0 <= m < n ==> !LosesAt(p, ks, m)
  {
    if n > 0 {
      LostOnlyByFault(p, ks, n - 1);
      LostStep(p, ks, n);
    }
  }

  /** Recorded sells add up to what left the position exactly when no row update was lost on the way. */
  lemma SellsMatchRow(p: Position, ks: seq<Tick>, n: nat)
    requires IsNew(p) && n <= |ks|
    ensures p.quantity == Run(p, ks, n).pos.remaining + Sum(Run(p, ks, n).sells)
            <==> forall m :: 0 <= m < n ==> !LosesAt(p, ks, m)
  {
    RunConserves(p, ks, n);
    LostOnlyByFault(p, ks, n);
  }

  /** A lost update: two full sells are recorded for one position. */
  lemma LostUpdateOversells() returns (p: Position, ks: seq<Tick>)
    ensures IsNew(p) && |ks| == 2
    ensures Run(p, ks, 2).sells == [10.0, 10.0] && p.quantity == 10.0 && Run(p, ks, 2).pos.remaining == 0.0
  {
    p := Opened("T", 100.0, 90.0, 120.0, 10.0);
    ks := [Tick(80.0, 5.0, true, UpdateFault, 0), Tick(80.0, 5.0, true, NoFault, 1)];
    assert Run(p, ks, 0) == Start(p);
    assert Run(p, ks, 1).pos == p && Run(p, ks, 1).sells == [10.0];
  }

  /* ---- What the broker sold ---- */

  /** The broker filled the close, but the row was not written: its remainder will be sold again. */
  predicate UnbookedSale(p: Position, k: Tick) {
    && p.state != Closed && Decide(p, k.price, k.trail).closeQty > 0.0 && k.filled
    && (k.fault == InsertFault || k.fault == UpdateFault)
  }

  predicate UnbookedAt(p: Position, ks: seq<Tick>, m: nat)
    requires m < |ks|
  {
    UnbookedSale(Run(p, ks, m).pos, ks[m])
  }

  /** Shares sold beyond what left the row. */
  function Oversold(l: Ledger): real {
    l.brokerSold - (l.pos.quantity - l.pos.remaining)
  }

  lemma VisitOversold(q: real, l: Ledger, k: Tick)
    requires q >= 0.0 && Conserves(q, l)
    ensures if UnbookedSale(l.pos, k) then Oversold(Visit(l, k)) > Oversold(l) else Oversold(Visit(l, k)) == Oversold(l)
  {
  }

  lemma OversoldStep(p: Position, ks: seq<Tick>, n: nat)
    requires IsNew(p) && 0 < n <= |ks|
    ensures var before, after := Oversold(Run(p, ks, n - 1)), Oversold(Run(p, ks, n));
      if UnbookedAt(p, ks, n - 1) then after > before else after == before
  {
    RunConserves(p, ks, n - 1);
    VisitOversold(p.quantity, Run(p, ks, n - 1), ks[n - 1]);
  }

  lemma {:induction false} OversoldOnlyByFault(p: Position, ks: seq<Tick>, n: nat)
    requires IsNew(p) && n <= |ks|
    ensures Oversold(Run(p, ks, n)) >= 0.0
    ensures Oversold(Run(p, ks, n)) == 0.0 <==> forall m :: 0 <= m < n ==> !UnbookedAt(p, ks, m)
  {
    if n > 0 {
      OversoldOnlyByFault(p, ks, n - 1);
      OversoldStep(p, ks, n);
    }
  }

  /**
   Over every run, the broker has sold at least what left the row, and exactly that if and only if every filled
   close was written to it, whether or not the order row was stored.
   */
  lemma OversoldExactly(p: Position, ks: seq<Tick>, n: nat)
    requires IsNew(p) && n <= |ks|
    ensures Run(p, ks, n).brokerSold >= p.quantity - Run(p, ks, n).pos.remaining
    ensures Run(p, ks, n).brokerSold == p.quantity - Run(p, ks, n).pos.remaining
            <==> forall m :: 0 <= m < n ==> !UnbookedAt(p, ks, m)
  {
    RunConserves(p, ks, n);
    OversoldOnlyByFault(p, ks, n);
  }

  /** The order row is not stored, so the books balance; yet the broker sold ten shares twice. */
  lemma LostOrderOversells() returns (p: Position, ks: seq<Tick>)
    ensures IsNew(p) && p.quantity == 10.0 && |ks| == 2
    ensures var l := Run(p, ks, 2);
      l.brokerSold == 20.0 && l.sells == [10.0] && l.pos.remaining == 0.0 && l.lost == 0.0
    ensures forall m :: 0 <= m < 2 ==> !LosesAt(p, ks, m)
  {
    p := Opened("T", 100.0, 90.0, 120.0, 10.0);
    ks := [Tick(80.0, 5.0, true, InsertFault, 0), Tick(80.0, 5.0, true, NoFault, 1)];
    assert Run(p, ks, 0) == Start(p);
    assert Run(p, ks, 1).pos == p && Run(p, ks, 1).sells == [] && Run(p, ks, 1).brokerSold == 10.0;
  }

  /* ---- What a visit means ---- */

  /** The row as the visit would leave it if the order filled and nothing failed. */
  function Intended(p: Position, k: Tick): Position {
    VisitRow(p, k.(filled := true, fault := NoFault))
  }

  /**
   A visit counts as closed exactly when it takes the row to the closed state, and as failed exactly when there is
   no session for it or the row is not left as intended.
   */
  lemma VerdictMeaning(p: Position, k: Tick)
    requires p.state != Closed && p.remaining > 0.0
    ensures VisitVerdict(p, k) == ClosedNow <==> k.fault != SessionFault && VisitRow(p, k).state == Closed
    ensures VisitVerdict(p, k) == FailedNow <==> k.fault == SessionFault || VisitRow(p, k) != Intended(p, k)
  {
  }

  /** A closed row carries the time of the visit that closed it and its reason; only that visit sets them. */
  lemma ClosingStamp(p: Position, k: Tick)
    requires p.state != Closed && p.closedTime == None && p.closeReason == None
    ensures var p' := VisitRow(p, k);
      if p'.state == Closed then
        && p'.closedTime == Some(k.now) && p'.remaining <= 0.0
        && p'.closeReason == Some(if p.state == Open then StopLoss else TrailingStop)
      else p'.closedTime == None && p'.closeReason == None
  {
  }

  /** States only move forward, and a closed row never changes again. */
  lemma {:induction false} ForwardOnly(p: Position, ks: seq<Tick>, m: nat, n: nat)
    requires IsNew(p) && m <= n <= |ks|
    ensures Run(p, ks, m).pos.state == Closed ==> Run(p, ks, n) == Run(p, ks, m)
    ensures Run(p, ks, m).pos.state == HalfClosed ==> Run(p, ks, n).pos.state != Open
  {
    if m < n { ForwardOnly(p, ks, m, n - 1); }
  }

  /* ---- The trailing stop ---- */

  ghost predicate IsMaxOf(h: real, xs: seq<real>) {
    (exists i :: 0 <= i < |xs| && xs[i] == h) && forall i :: 0 <= i < |xs| ==> xs[i] <= h
  }

  /** In the half-closed state the stored high is the highest price seen since the half was taken. */
  ghost predicate TracksHigh(l: Ledger) {
    l.pos.state == HalfClosed ==>
      && l.pos.highest.Some? && IsMaxOf(l.pos.highest.value, l.since)
      && l.pos.highest.value >= l.pos.takeProfit
      && l.pos.trailing == Some(l.pos.highest.value - l.lastTrail)
  }

  /** The visit's outcome reaches the row. */
  predicate Written(p: Position, k: Tick) {
    if Decide(p, k.price, k.trail).closeQty > 0.0 then k.filled && k.fault == NoFault
    else k.fault == NoFault || k.fault == InsertFault
  }

  /** A half-closed row is visited at a new high that does not reach the row. */
  predicate LosesHigh(p: Position, k: Tick) {
    p.state == HalfClosed && p.highest.Some? && k.price > p.highest.value && !Written(p, k)
  }

  /** In every half-closed state: a high at or above the target, and the stop one distance below it. */
  ghost predicate Anchored(l: Ledger) {
    && l.pos.takeProfit > 0.0
    && (l.pos.state == HalfClosed ==>
          && l.pos.remaining > 0.0 && l.pos.highest.Some? && l.pos.highest.value >= l.pos.takeProfit
          && l.pos.trailing == Some(l.pos.highest.value - l.lastTrail))
  }

  lemma VisitAnchored(l: Ledger, k: Tick)
    requires Anchored(l) && l.pos.remaining >= 0.0 && (l.pos.state == Open ==> l.pos.remaining > 0.0)
    ensures Anchored(Visit(l, k)) && Visit(l, k).pos.takeProfit == l.pos.takeProfit
  {
  }

  /** No assumption on prices, distances, order outcomes or storage. */
  lemma {:induction false} RunAnchored(p: Position, ks: seq<Tick>, n: nat)
    requires IsNew(p) && p.quantity > 0.0 && p.takeProfit > 0.0 && n <= |ks|
    ensures Anchored(Run(p, ks, n)) && Run(p, ks, n).pos.takeProfit == p.takeProfit
  {
    if n > 0 {
      RunAnchored(p, ks, n - 1);
      RunConserves(p, ks, n - 1);
      VisitAnchored(Run(p, ks, n - 1), ks[n - 1]);
    }
  }

  lemma MaxAppend(h: real, xs: seq<real>, x: real)
    requires IsMaxOf(h, xs)
    ensures IsMaxOf(Max(h, x), xs + [x]) && (IsMaxOf(h, xs + [x]) <==> x <= h)
  {
    var i :| 0 <= i < |xs| && xs[i] == h;
    assert (xs + [x])[i] == h && (xs + [x])[|xs|] == x;
  }

  /** One visit to a row that tracks the high stops tracking it exactly when a new high does not reach the row. */
  lemma VisitTracksHigh(l: Ledger, k: Tick)
    requires Anchored(l) && l.pos.remaining >= 0.0 && TracksHigh(l)
    ensures TracksHigh(Visit(l, k)) <==> !LosesHigh(l.pos, k)
  {
    var l' := Visit(l, k);
    if l.pos.state == HalfClosed {
      MaxAppend(l.pos.highest.value, l.since, k.price);
    } else if l'.pos.state == HalfClosed {
      assert l'.since == [k.price] && l'.since[0] == k.price;
    }
  }

  /** Up to visit n the stored high has been the highest price since the half was taken. */
  ghost predicate TracksUpTo(p: Position, ks: seq<Tick>, n: nat)
    requires n <= |ks|
  {
    forall m :: 0 <= m <= n ==> TracksHigh(Run(p, ks, m))
  }

  predicate LosesHighAt(p: Position, ks: seq<Tick>, m: nat)
    requires m < |ks|
  {
    LosesHigh(Run(p, ks, m).pos, ks[m])
  }

  lemma TracksStep(p: Position, ks: seq<Tick>, n: nat)
    requires IsNew(p) && p.quantity > 0.0 && p.takeProfit > 0.0 && 0 < n <= |ks| && TracksHigh(Run(p, ks, n - 1))
    ensures TracksHigh(Run(p, ks, n)) <==> !LosesHighAt(p, ks, n - 1)
  {
    RunAnchored(p, ks, n - 1);
    RunConserves(p, ks, n - 1);
    VisitTracksHigh(Run(p, ks, n - 1), ks[n - 1]);
  }

  /**
   Over every run, with any prices, distances, order outcomes and faults: in every half-closed state the stored
   high is the maximum of all prices since and including the take-profit tick, at least the target, and the
   stop is that high minus the distance last written, if and only if every new high reached the row.
   */
  lemma {:induction false} TracksHighExactly(p: Position, ks: seq<Tick>, n: nat)
    requires IsNew(p) && p.quantity > 0.0 && p.takeProfit > 0.0 && n <= |ks|
    ensures TracksUpTo(p, ks, n) <==> forall m :: 0 <= m < n ==> !LosesHighAt(p, ks, m)
  {
    if n > 0 {
      TracksHighExactly(p, ks, n - 1);
      assert TracksUpTo(p, ks, n) <==> TracksUpTo(p, ks, n - 1) && TracksHigh(Run(p, ks, n));
      if TracksUpTo(p, ks, n - 1) { TracksStep(p, ks, n); }
    }
  }

  /** Ticks with one trailing distance and no storage fault; prices and order outcomes are free. */
  ghost predicate FaultFree(ks: seq<Tick>, trail: real) {
    forall m :: 0 <= m < |ks| ==> ks[m].fault == NoFault && ks[m].trail == trail
  }

  ghost predicate AlwaysTracks(p: Position, trail: real) {
    forall ks: seq<Tick> :: FaultFree(ks, trail) ==> TracksUpTo(p, ks, |ks|)
  }

  lemma AlwaysWritten(p: Position, ks: seq<Tick>, trail: real)
    requires FaultFree(ks, trail) && trail > 0.0
    ensures forall m :: 0 <= m < |ks| ==> !LosesHighAt(p, ks, m)
  {
  }

  /** Without storage faults the high is tracked, whatever the prices and order outcomes, exactly for positive distances. */
  lemma TracksHighNeedsPositiveTrail(p: Position, trail: real)
    requires IsNew(p) && p.quantity > 0.0 && p.takeProfit > 0.0
    ensures AlwaysTracks(p, trail) <==> trail > 0.0
  {
    if trail > 0.0 {
      forall ks: seq<Tick> | FaultFree(ks, trail) ensures TracksUpTo(p, ks, |ks|) {
        AlwaysWritten(p, ks, trail);
        TracksHighExactly(p, ks, |ks|);
      }
    } else {
      var x := Max(p.stop, p.takeProfit) + 1.0;
      var ks := [Tick(x, trail, true, NoFault, 0), Tick(x + 1.0, trail, false, NoFault, 1)];
      RejectedCloseLosesHigh(p, ks, x, trail);
      TracksHighExactly(p, ks, 2);
      assert FaultFree(ks, trail) && !TracksUpTo(p, ks, |ks|);
    }
  }

  /** Taking the half, then a rejected close at a higher price: the row keeps the old high. */
  lemma RejectedCloseLosesHigh(p: Position, ks: seq<Tick>, x: real, trail: real)
    requires IsNew(p) && p.quantity > 0.0 && x > p.stop && x >= p.takeProfit && trail <= 0.0
    requires ks == [Tick(x, trail, true, NoFault, 0), Tick(x + 1.0, trail, false, NoFault, 1)]
    ensures Run(p, ks, 2).pos.highest == Some(x) && Run(p, ks, 2).since == [x, x + 1.0]
    ensures LosesHighAt(p, ks, 1)
  {
    assert Run(p, ks, 0) == Start(p);
    assert Run(p, ks, 1).pos.state == HalfClosed && Run(p, ks, 1).since == [x];
  }

  /** A row update lost at a new high does the same with a positive distance. */
  lemma LostUpdateLosesHigh() returns (p: Position, ks: seq<Tick>)
    ensures IsNew(p) && |ks| == 2 && ks[0].fault == NoFault && ks[1].fault == UpdateFault
    ensures ks[0].trail == ks[1].trail == 5.0
    ensures Run(p, ks, 2).pos.state == HalfClosed && Run(p, ks, 2).since == [120.0, 130.0]
    ensures Run(p, ks, 2).pos.highest == Some(120.0)
  {
    p := Opened("T", 100.0, 90.0, 120.0, 10.0);
    ks := [Tick(120.0, 5.0, true, NoFault, 0), Tick(130.0, 5.0, true, UpdateFault, 1)];
    assert Run(p, ks, 0) == Start(p);
    assert Run(p, ks, 1).pos.state == HalfClosed && Run(p, ks, 1).since == [120.0];
  }

  /* ---- When the trailing stop moves down ---- */

  /** Between two half-closed states one visit lowers the stop. */
  ghost predicate LowersStop(l: Ledger, k: Tick) {
    var p, p' := l.pos, Visit(l, k).pos;
    && p.state == p'.state == HalfClosed && p.trailing.Some? && p'.trailing.Some?
    && p'.trailing.value < p.trailing.value
  }

  /** One visit lowers the stop exactly when the row is written with a distance that grew by more than the high did. */
  lemma VisitLowersStop(l: Ledger, k: Tick)
    requires Anchored(l) && l.pos.state == HalfClosed
    ensures LowersStop(l, k) <==>
      && k.trail > 0.0 && k.price > Max(l.pos.highest.value, k.price) - k.trail && Written(l.pos, k)
      && k.trail - l.lastTrail > Max(l.pos.highest.value, k.price) - l.pos.highest.value
  {
  }

  /** A wider distance at an unchanged price lowers the stop from 115 to 110. */
  lemma WiderDistanceLowersStop() returns (p: Position, ks: seq<Tick>)
    ensures IsNew(p) && |ks| == 2 && forall m :: 0 <= m < 2 ==> ks[m].fault == NoFault && ks[m].trail > 0.0
    ensures Run(p, ks, 1).pos.trailing == Some(115.0) && Run(p, ks, 2).pos.trailing == Some(110.0)
  {
    p := Opened("T", 100.0, 90.0, 120.0, 10.0);
    ks := [Tick(120.0, 5.0, true, NoFault, 0), Tick(120.0, 10.0, true, NoFault, 1)];
    assert Run(p, ks, 0) == Start(p);
    assert Run(p, ks, 1).pos.state == HalfClosed && Run(p, ks, 1).pos.trailing == Some(115.0);
  }

  ghost predicate WithDistances(ks: seq<Tick>, ds: seq<real>) {
    |ks| == |ds| && forall m :: 0 <= m < |ks| ==> ks[m].trail == ds[m]
  }

  /** No positive distance is wider than the one before it. */
  ghost predicate NeverWidens(ds: seq<real>) {
    forall m :: 0 < m < |ds| && ds[m] > 0.0 ==> ds[m] <= ds[m - 1]
  }

  ghost predicate NeverLowersStop(p: Position, ks: seq<Tick>) {
    forall m :: 0 <= m < |ks| ==> !LowersStop(Run(p, ks, m), ks[m])
  }

  /** While distances never widen, the distance behind the stop is at least the current positive one. */
  lemma {:induction false} LastTrailBounds(p: Position, ks: seq<Tick>, ds: seq<real>, n: nat)
    requires IsNew(p) && p.quantity > 0.0 && p.takeProfit > 0.0 && 0 < n <= |ks| && WithDistances(ks, ds) && NeverWidens(ds)
    ensures Run(p, ks, n).pos.state == HalfClosed && ks[n - 1].trail > 0.0 ==> ks[n - 1].trail <= Run(p, ks, n).lastTrail
  {
    RunAnchored(p, ks, n - 1);
    if n > 1 { LastTrailBounds(p, ks, ds, n - 1); }
    var l, k := Run(p, ks, n - 1), ks[n - 1];
    if l.pos.state == HalfClosed {
      ForwardFromStart(p, ks, n - 1);
      HalfVisitTrail(l, k);
    }
  }

  lemma ForwardFromStart(p: Position, ks: seq<Tick>, n: nat)
    requires IsNew(p) && n <= |ks| && Run(p, ks, n).pos.state == HalfClosed
    ensures n > 0
  {
  }

  lemma HalfVisitTrail(l: Ledger, k: Tick)
    requires Anchored(l) && l.pos.state == HalfClosed
    ensures Visit(l, k).lastTrail == k.trail || Visit(l, k).lastTrail == l.lastTrail
  {
  }

  /**
   For a sequence of trailing distances: whatever the prices, order outcomes and storage faults, the stop of a
   half-closed position never moves down, if and only if no positive distance is wider than the one before it.
   */
  lemma StopNeverDropsExactly(p: Position, ds: seq<real>)
    requires IsNew(p) && p.quantity > 0.0 && p.takeProfit > 0.0
    ensures (forall ks :: WithDistances(ks, ds) ==> NeverLowersStop(p, ks)) <==> NeverWidens(ds)
  {
    if NeverWidens(ds) {
      forall ks | WithDistances(ks, ds) ensures NeverLowersStop(p, ks) {
        NarrowingKeepsStop(p, ks, ds);
      }
    } else {
      var ks := WideningExample(p, ds);
      assert WithDistances(ks, ds);
    }
  }

  lemma WideningExample(p: Position, ds: seq<real>) returns (ks: seq<Tick>)
    requires IsNew(p) && p.quantity > 0.0 && p.takeProfit > 0.0 && !NeverWidens(ds)
    ensures WithDistances(ks, ds) && !NeverLowersStop(p, ks)
  {
    var m :| 0 < m < |ds| && ds[m] > 0.0 && ds[m] > ds[m - 1];
    var x := Max(p.stop, p.takeProfit) + 1.0;
    ks := seq(|ds|, i requires 0 <= i < |ds| => Tick(x, ds[i], i == m - 1, NoFault, i));
    WideningDropsStop(p, ks, m, x);
  }

  lemma StopKept(p: Position, ks: seq<Tick>, ds: seq<real>, n: nat)
    requires IsNew(p) && p.quantity > 0.0 && p.takeProfit > 0.0 && n < |ks| && WithDistances(ks, ds) && NeverWidens(ds)
    ensures !LowersStop(Run(p, ks, n), ks[n])
  {
    var l := Run(p, ks, n);
    if l.pos.state == HalfClosed {
      RunAnchored(p, ks, n);
      ForwardFromStart(p, ks, n);
      LastTrailBounds(p, ks, ds, n);
      VisitLowersStop(l, ks[n]);
    }
  }

  lemma NarrowingKeepsStop(p: Position, ks: seq<Tick>, ds: seq<real>)
    requires IsNew(p) && p.quantity > 0.0 && p.takeProfit > 0.0 && WithDistances(ks, ds) && NeverWidens(ds)
    ensures NeverLowersStop(p, ks)
  {
    forall n | 0 <= n < |ks| ensures !LowersStop(Run(p, ks, n), ks[n]) {
      StopKept(p, ks, ds, n);
    }
  }

  /** Orders are rejected until the half is taken; the next visit at the same price has a wider distance. */
  lemma WideningDropsStop(p: Position, ks: seq<Tick>, m: nat, x: real)
    requires IsNew(p) && p.quantity > 0.0 && 0 < m < |ks| && x > p.stop && x >= p.takeProfit > 0.0
    requires forall i :: 0 <= i < |ks| ==> ks[i] == Tick(x, ks[i].trail, i == m - 1, NoFault, i)
    requires ks[m].trail > 0.0 && ks[m].trail > ks[m - 1].trail
    ensures LowersStop(Run(p, ks, m), ks[m])
  {
    RejectedStaysOpen(p, ks, m - 1, x);
    var l := Run(p, ks, m);
    assert l.pos.state == HalfClosed && l.pos.highest == Some(x) && l.pos.trailing == Some(x - ks[m - 1].trail);
  }

  lemma {:induction false} RejectedStaysOpen(p: Position, ks: seq<Tick>, n: nat, x: real)
    requires IsNew(p) && p.quantity > 0.0 && n <= |ks| && x > p.stop && x >= p.takeProfit
    requires forall i :: 0 <= i < n ==> ks[i].price == x && !ks[i].filled
    ensures Run(p, ks, n).pos == p
  {
    if n > 0 { RejectedStaysOpen(p, ks, n - 1, x); }
  }

  ghost predicate HalfAt(p: Position, ks: seq<Tick>, n: nat)
    requires n <= |ks|
  {
    Run(p, ks, n).pos.state == HalfClosed && Run(p, ks, n).pos.trailing.Some?
  }

  ghost function StopAt(p: Position, ks: seq<Tick>, n: nat): real
    requires n <= |ks| && HalfAt(p, ks, n)
  {
    Run(p, ks, n).pos.trailing.value
  }

  /** A half-closed row always has a trailing stop. */
  lemma HalfHasStop(p: Position, ks: seq<Tick>, n: nat)
    requires IsNew(p) && p.quantity > 0.0 && p.takeProfit > 0.0 && n <= |ks|
    ensures HalfAt(p, ks, n) <==> Run(p, ks, n).pos.state == HalfClosed
  {
    RunAnchored(p, ks, n);
  }

  lemma StopStep(p: Position, ks: seq<Tick>, ds: seq<real>, n: nat)
    requires IsNew(p) && p.quantity > 0.0 && p.takeProfit > 0.0 && 0 < n <= |ks| && WithDistances(ks, ds) && NeverWidens(ds)
    requires HalfAt(p, ks, n - 1) && HalfAt(p, ks, n)
    ensures StopAt(p, ks, n - 1) <= StopAt(p, ks, n)
  {
    StopKept(p, ks, ds, n - 1);
  }

  lemma StaysHalf(p: Position, ks: seq<Tick>, m: nat, k: nat, n: nat)
    requires IsNew(p) && p.quantity > 0.0 && p.takeProfit > 0.0 && m <= k <= n <= |ks| && HalfAt(p, ks, m) && HalfAt(p, ks, n)
    ensures HalfAt(p, ks, k)
  {
    ForwardOnly(p, ks, m, k);
    ForwardOnly(p, ks, k, n);
    HalfHasStop(p, ks, k);
  }

  /** While distances never widen, later stops are never below earlier ones. */
  lemma {:induction false} TrailingNeverDrops(p: Position, ks: seq<Tick>, ds: seq<real>, m: nat, n: nat)
    requires IsNew(p) && p.quantity > 0.0 && p.takeProfit > 0.0 && m <= n <= |ks| && WithDistances(ks, ds) && NeverWidens(ds)
    requires HalfAt(p, ks, m) && HalfAt(p, ks, n)
    ensures StopAt(p, ks, m) <= StopAt(p, ks, n)
  {
    if m < n {
      StaysHalf(p, ks, m, n - 1, n);
      TrailingNeverDrops(p, ks, ds, m, n - 1);
      StopStep(p, ks, ds, n);
    }
  }
}
