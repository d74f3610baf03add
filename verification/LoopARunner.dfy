/** The position store and the monitoring loop of Loop A, in place (app/repositories/ordering.py, app/loops/loop_a_runtime.py). */
module LoopARunner {
  import opened Prelude
  import opened StateMachine
  import opened LoopA

  datatype Order = Order(ticker: string, quantity: real, price: real, reason: Option<CloseReason>)

  /** The sell order that one visit records, as a list of at most one row. */
  function SellRows(p: Position, k: Tick): seq<Order> {
    if p.state != Closed && VisitSell(p, k).Some? then
      [Order(p.ticker, VisitSell(p, k).value, k.price, Decide(p, k.price, k.trail).reason)]
    else []
  }

  /** The order that a filled visit of an open or half-closed row records: what, how much, at which price and why. */
  lemma SellMeaning(p: Position, k: Tick)
    requires p.remaining > 0.0 && k.filled && k.fault == NoFault
    ensures p.state == Open ==>
      SellRows(p, k) == if k.price <= p.stop then [Order(p.ticker, p.remaining, k.price, Some(StopLoss))]
                        else if k.price >= p.takeProfit then [Order(p.ticker, p.remaining / 2.0, k.price, Some(TakeProfitHalf))]
                        else []
    ensures p.state == HalfClosed && p.highest.Some? && p.highest.value > 0.0 ==>
      SellRows(p, k) == if k.price <= Max(p.highest.value, k.price) - k.trail
                        then [Order(p.ticker, p.remaining, k.price, Some(TrailingStop))] else []
    ensures p.state == Closed ==> SellRows(p, k) == []
  {
  }

  /** Closed rows are not listed and so not visited. */
  function RowAfter(p: Position, k: Tick): Position {
    if p.state != Closed then VisitRow(p, k) else p
  }

  /** All rows after visiting the open ones among the first n. */
  function Visited(ps: seq<Position>, ks: seq<Tick>, n: nat): (r: seq<Position>)
    requires n <= |ps| == |ks|
    ensures |r| == |ps|
    ensures forall i :: 0 <= i < |ps| ==>
      r[i] == if i < n then RowAfter(ps[i], ks[i]) else ps[i]
  {
    if n == 0 then ps else Visited(ps, ks, n - 1)[n - 1 := RowAfter(ps[n - 1], ks[n - 1])]
  }

  /** The sell orders recorded by those visits, in visiting order. */
  function Recorded(ps: seq<Position>, ks: seq<Tick>, n: nat): seq<Order>
    requires n <= |ps| == |ks|
  {
    if n == 0 then [] else Recorded(ps, ks, n - 1) + SellRows(ps[n - 1], ks[n - 1])
  }

  /** How many of the first n rows are visited with a given verdict. */
  function Count(ps: seq<Position>, ks: seq<Tick>, v: Verdict, n: nat): nat
    requires n <= |ps| == |ks|
  {
    if n == 0 then 0
    else Count(ps, ks, v, n - 1) + if ps[n - 1].state != Closed && VisitVerdict(ps[n - 1], ks[n - 1]) == v then 1 else 0
  }

  function OpenCount(ps: seq<Position>, n: nat): nat
    requires n <= |ps|
  {
    if n == 0 then 0 else OpenCount(ps, n - 1) + if ps[n - 1].state != Closed then 1 else 0
  }

  predicate HasVerdict(p: Position, k: Tick, v: Verdict) {
    p.state != Closed && VisitVerdict(p, k) == v
  }

  /** The rows of the first n that are visited with a given verdict. */
  function VisitedWith(ps: seq<Position>, ks: seq<Tick>, v: Verdict, n: nat): set<nat>
    requires n <= |ps| == |ks|
  {
    set i: nat | i < n && HasVerdict(ps[i], ks[i], v)
  }

  /** A cycle's counts are the numbers of those rows, and of the open rows. */
  lemma {:induction false} CountMeaning(ps: seq<Position>, ks: seq<Tick>, v: Verdict, n: nat)
    requires n <= |ps| == |ks|
    ensures Count(ps, ks, v, n) == |VisitedWith(ps, ks, v, n)|
  {
    if n > 0 {
      CountMeaning(ps, ks, v, n - 1);
      OneMoreVisited(ps, ks, v, n - 1);
    }
  }

  lemma OneMoreVisited(ps: seq<Position>, ks: seq<Tick>, v: Verdict, k: nat)
    requires k < |ps| == |ks|
    ensures |VisitedWith(ps, ks, v, k + 1)| == |VisitedWith(ps, ks, v, k)| + if HasVerdict(ps[k], ks[k], v) then 1 else 0
  {
    if HasVerdict(ps[k], ks[k], v) {
      assert VisitedWith(ps, ks, v, k + 1) == VisitedWith(ps, ks, v, k) + {k};
    } else {
      assert VisitedWith(ps, ks, v, k + 1) == VisitedWith(ps, ks, v, k);
    }
  }

  lemma {:induction false} OpenCountMeaning(ps: seq<Position>, n: nat)
    requires n <= |ps|
    ensures OpenCount(ps, n) == |set i: nat | i < n && ps[i].state != Closed|
  {
    if n > 0 {
      OpenCountMeaning(ps, n - 1);
      var before := set i: nat | i < n - 1 && ps[i].state != Closed;
      assert (set i: nat | i < n && ps[i].state != Closed) == before + if ps[n - 1].state != Closed then {n - 1} else {};
    }
  }

  lemma {:induction false} CountsFit(ps: seq<Position>, ks: seq<Tick>, n: nat)
    requires n <= |ps| == |ks|
    ensures Count(ps, ks, ClosedNow, n) + Count(ps, ks, FailedNow, n) <= OpenCount(ps, n)
  {
    if n > 0 { CountsFit(ps, ks, n - 1); }
  }

  /** The visit ends the cycle: it failed, and raising the critical event for it raised in turn. */
  predicate Breaks(p: Position, k: Tick, alertRaises: bool) {
    p.state != Closed && VisitVerdict(p, k) == FailedNow && alertRaises
  }

  /* ---- Rows and their ledgers ---- */

  /** Everything that ever happened to one position, replayed from the row as it was opened. */
  function Replayed(born: Position, ticks: seq<Tick>): Ledger {
    Run(born, ticks, |ticks|)
  }

  lemma {:induction false} RunPrefix(p: Position, xs: seq<Tick>, ys: seq<Tick>, n: nat)
    requires n <= |xs|
    ensures Run(p, xs + ys, n) == Run(p, xs, n)
  {
    if n > 0 { RunPrefix(p, xs, ys, n - 1); }
  }

  /** One more visit is one more step of the replay, and makes exactly the store's moves. */
  lemma ReplayNext(born: Position, ticks: seq<Tick>, k: Tick)
    ensures var l, l' := Replayed(born, ticks), Replayed(born, ticks + [k]);
      l.pos.state != Closed ==> l'.pos == VisitRow(l.pos, k) && l'.sells == l.sells + SoldNow(l.pos, k)
  {
    RunPrefix(born, ticks, [k], |ticks|);
    var l := Replayed(born, ticks);
    assert l.sells + [] == l.sells;
  }

  function SoldNow(p: Position, k: Tick): seq<real> {
    if VisitSell(p, k).Some? then [VisitSell(p, k).value] else []
  }

  /** The quantities of the orders recorded for position i; `owner` says whose each order is. */
  function SellsOf(orders: seq<Order>, owner: seq<nat>, i: nat): seq<real>
    requires |owner| == |orders|
  {
    if orders == [] then []
    else
      var n := |orders| - 1;
      SellsOf(orders[..n], owner[..n], i) + if owner[n] == i then [orders[n].quantity] else []
  }

  lemma SellsOfSnoc(orders: seq<Order>, owner: seq<nat>, o: Order, id: nat, i: nat)
    requires |owner| == |orders|
    ensures SellsOf(orders + [o], owner + [id], i) == SellsOf(orders, owner, i) + if id == i then [o.quantity] else []
  {
    assert (orders + [o])[..|orders|] == orders && (owner + [id])[..|owner|] == owner;
  }

  lemma {:induction false} NoSellsYet(orders: seq<Order>, owner: seq<nat>, i: nat)
    requires |owner| == |orders| && forall k :: 0 <= k < |owner| ==> owner[k] < i
    ensures SellsOf(orders, owner, i) == []
  {
    if orders != [] { NoSellsYet(orders[..|orders| - 1], owner[..|owner| - 1], i); }
  }

  /** Rows, orders and counters of a cycle that has gone through the first n rows. */
  ghost predicate CycleAt(ps: seq<Position>, ks: seq<Tick>, n: nat, rows: seq<Position>, base: seq<Order>, orders: seq<Order>,
                          monitored: nat, closed: nat, failed: nat)
    requires n <= |ps| == |ks|
  {
    && rows == Visited(ps, ks, n)
    && orders == base + Recorded(ps, ks, n)
    && monitored == OpenCount(ps, n)
    && closed == Count(ps, ks, ClosedNow, n)
    && failed == Count(ps, ks, FailedNow, n)
  }

  ghost predicate NoneBreaks(ps: seq<Position>, ks: seq<Tick>, alertRaises: seq<bool>, n: nat)
    requires n <= |ps| == |ks| == |alertRaises|
  {
    forall i :: 0 <= i < n ==> !Breaks(ps[i], ks[i], alertRaises[i])
  }

  /** How far a cycle gets: to the first visit that breaks it, else to the row whose price or ATR is not to be had. */
  ghost predicate EndsAt(ps: seq<Position>, ks: seq<Tick>, alertRaises: seq<bool>, served: nat, reached: nat, raised: bool)
    requires served <= |ps| == |ks| == |alertRaises|
  {
    && reached <= served
    && (reached > 0 ==> NoneBreaks(ps, ks, alertRaises, reached - 1))
    && var broken := reached > 0 && Breaks(ps[reached - 1], ks[reached - 1], alertRaises[reached - 1]);
       (reached == served || broken) && (raised <==> broken || served < |ps|)
  }

  lemma CycleNext(ps: seq<Position>, ks: seq<Tick>, n: nat, rows: seq<Position>, base: seq<Order>, orders: seq<Order>,
                  monitored: nat, closed: nat, failed: nat, v: Verdict)
    requires n < |ps| == |ks| && CycleAt(ps, ks, n, rows, base, orders, monitored, closed, failed)
    requires ps[n].state != Closed ==> v == VisitVerdict(ps[n], ks[n])
    ensures rows[n] == ps[n]
    ensures if ps[n].state == Closed then CycleAt(ps, ks, n + 1, rows, base, orders, monitored, closed, failed)
            else CycleAt(ps, ks, n + 1, rows[n := VisitRow(ps[n], ks[n])], base, orders + SellRows(ps[n], ks[n]), monitored + 1,
                         closed + (if v == ClosedNow then 1 else 0), failed + (if v == FailedNow then 1 else 0))
  {
    var rows' := Visited(ps, ks, n + 1);
    assert rows' == rows[n := RowAfter(ps[n], ks[n])];
    assert orders + SellRows(ps[n], ks[n]) == base + Recorded(ps, ks, n + 1);
    if ps[n].state == Closed { assert orders + [] == orders; }
  }

  class OrderingStore {
    var positions: seq<Position>
    var orders: seq<Order>
    /** The rows as they were opened, the visits each one had since, and whose each order is. */
    ghost var born: seq<Position>
    ghost var ticks: seq<seq<Tick>>
    ghost var owner: seq<nat>

    constructor ()
      ensures Valid() && positions == [] && orders == []
    {
      positions, orders, born, ticks, owner := [], [], [], [], [];
    }

    /**
     Over all cycles so far, every row is where LoopA.Run takes it, and its recorded orders are the sells of
     that run. So whatever is proved about runs holds for every stored row.
     */
    ghost predicate Valid()
      reads this
    {
      && |born| == |ticks| == |positions| && |owner| == |orders|
      && (forall k :: 0 <= k < |owner| ==> owner[k] < |positions|)
      && forall i :: 0 <= i < |positions| ==> RowValid(i)
    }

    ghost predicate RowValid(i: nat)
      requires i < |positions| && |born| == |ticks| == |positions| && |owner| == |orders|
      reads this
    {
      && IsNew(born[i])
      && positions[i] == Replayed(born[i], ticks[i]).pos
      && SellsOf(orders, owner, i) == Replayed(born[i], ticks[i]).sells
    }

    /**
     Row by row: the recorded orders and the remainder add up to the quantity exactly when no row update was
     lost; what the broker sold and the remainder do exactly when, besides, no order row was lost.
     */
    lemma RowConserves(i: nat)
      requires Valid() && i < |positions|
      ensures positions[i].quantity == positions[i].remaining + Sum(SellsOf(orders, owner, i))
              <==> forall m :: 0 <= m < |ticks[i]| ==> !LosesAt(born[i], ticks[i], m)
      ensures positions[i].quantity == positions[i].remaining + Replayed(born[i], ticks[i]).brokerSold
              <==> forall m :: 0 <= m < |ticks[i]| ==> !UnbookedAt(born[i], ticks[i], m)
    {
      assert RowValid(i);
      RunConserves(born[i], ticks[i], |ticks[i]|);
      SellsMatchRow(born[i], ticks[i], |ticks[i]|);
      OversoldExactly(born[i], ticks[i], |ticks[i]|);
    }

    method OpenPosition(ticker: string, entry: real, stop: real, takeProfit: real, quantity: real) returns (id: nat)
      requires Valid() && quantity >= 0.0
      modifies this
      ensures Valid() && id == old(|positions|) && orders == old(orders)
      ensures positions == old(positions) + [Opened(ticker, entry, stop, takeProfit, quantity)]
      ensures var p := positions[id];
        && p.ticker == ticker && p.state == Open && p.entry == entry && p.stop == stop && p.takeProfit == takeProfit
        && p.quantity == p.remaining == quantity && p.highest == Some(entry) && p.trailing == None
        && p.closedTime == None && p.closeReason == None
    {
      id := |positions|;
      var p := Opened(ticker, entry, stop, takeProfit, quantity);
      NoSellsYet(orders, owner, id);
      assert Replayed(p, []) == Start(p);
      positions := positions + [p];
      born, ticks := born + [p], ticks + [[]];
      forall i | 0 <= i < |positions| ensures RowValid(i) {
        if i < id { assert old(RowValid(i)); }
      }
    }

    method CreateOrder(o: Order)
      modifies this`orders
      ensures orders == old(orders) + [o]
    {
      orders := orders + [o];
    }

    method ApplyTransition(id: nat, t: Transition, now: int)
      requires id < |positions|
      modifies this`positions
      ensures positions == old(positions)[id := Applied(old(positions)[id], t, now)]
    {
      positions := positions[id := Applied(positions[id], t, now)];
    }

    /**
     One monitoring cycle. `ks` holds the world's answers row by row. An exception ends the cycle: the price
     or ATR provider raises for row `served`, or the critical event of a failed visit raises (also inside
     the order placement). `reached` rows have then been gone through.
     */
    method MonitorPositionsOnce(ks: seq<Tick>, served: nat, alertRaises: seq<bool>)
      returns (monitored: nat, closed: nat, failed: nat, raised: bool, ghost reached: nat)
      requires Valid() && served <= |positions| == |ks| == |alertRaises|
      modifies this
      ensures Valid() && born == old(born)
      ensures EndsAt(old(positions), ks, alertRaises, served, reached, raised)
      ensures CycleAt(old(positions), ks, reached, positions, old(orders), orders, monitored, closed, failed)
      ensures closed + failed <= monitored
    {
      ghost var listed, base := positions, orders;
      assert orders == base + Recorded(listed, ks, 0);
      monitored, closed, failed, raised, reached := 0, 0, 0, served < |positions|, 0;
      for id := 0 to served
        invariant Valid() && |positions| == |listed| && born == old(born) && reached == id && (raised <==> served < |listed|)
        invariant CycleAt(listed, ks, id, positions, base, orders, monitored, closed, failed)
        invariant NoneBreaks(listed, ks, alertRaises, id)
      {
        var failedNow;
        monitored, closed, failed, failedNow := GoThrough(id, ks, monitored, closed, failed, listed, base);
        reached := id + 1;
        if failedNow && alertRaises[id] {
          raised := true;
          break;
        }
      }
      CountsFit(listed, ks, reached);
    }

    /** One row of a cycle: visited and counted if it is open. */
    method GoThrough(id: nat, ks: seq<Tick>, monitored: nat, closed: nat, failed: nat,
                     ghost listed: seq<Position>, ghost base: seq<Order>)
      returns (monitored': nat, closed': nat, failed': nat, failedNow: bool)
      requires Valid() && id < |positions| == |listed| == |ks|
      requires CycleAt(listed, ks, id, positions, base, orders, monitored, closed, failed)
      modifies this
      ensures Valid() && born == old(born) && |positions| == |listed|
      ensures CycleAt(listed, ks, id + 1, positions, base, orders, monitored', closed', failed')
      ensures failedNow <==> Breaks(listed[id], ks[id], true)
    {
      CycleNext(listed, ks, id, positions, base, orders, monitored, closed, failed, VisitVerdict(listed[id], ks[id]));
      monitored', closed', failed', failedNow := monitored, closed, failed, false;
      if positions[id].state != Closed {
        monitored' := monitored' + 1;
        var verdict := VisitOne(id, ks[id]);
        closed' := closed' + (if verdict == ClosedNow then 1 else 0);
        failed' := failed' + (if verdict == FailedNow then 1 else 0);
        failedNow := verdict == FailedNow;
      }
    }

    /** The visit of one open row: session, order, order row, position row. */
    method VisitOne(id: nat, k: Tick) returns (verdict: Verdict)
      requires Valid() && id < |positions| && positions[id].state != Closed
      modifies this
      ensures Valid() && born == old(born) && ticks == old(ticks)[id := old(ticks)[id] + [k]]
      ensures positions == old(positions)[id := VisitRow(old(positions)[id], k)]
      ensures orders == old(orders) + SellRows(old(positions)[id], k)
      ensures verdict == VisitVerdict(old(positions)[id], k)
    {
      ghost var rows, table, whose := positions, orders, owner;
      verdict := MoveRow(id, k);
      owner := whose + seq(|SellRows(rows[id], k)|, i => id);
      ticks := ticks[id := ticks[id] + [k]];
      ReplayNext(born[id], old(ticks[id]), k);
      forall i | 0 <= i < |positions| ensures RowValid(i) {
        assert old(RowValid(i));
        if VisitSell(rows[id], k).Some? {
          SellsOfSnoc(table, whose, SellRows(rows[id], k)[0], id, i);
        } else {
          assert orders == table && owner == whose;
        }
      }
    }

    /** What the visit does to the two tables. */
    method MoveRow(id: nat, k: Tick) returns (verdict: Verdict)
      requires id < |positions| && positions[id].state != Closed
      modifies this`positions, this`orders
      ensures positions == old(positions)[id := VisitRow(old(positions)[id], k)]
      ensures orders == old(orders) + SellRows(old(positions)[id], k)
      ensures verdict == VisitVerdict(old(positions)[id], k)
    {
      var p := positions[id];
      var t := Decide(p, k.price, k.trail);
      verdict := Quiet;
      if k.fault == SessionFault {
        verdict := FailedNow;
      } else if t.closeQty > 0.0 {
        if !k.filled || k.fault == InsertFault {
          verdict := FailedNow;
        } else {
          CreateOrder(Order(p.ticker, t.closeQty, k.price, t.reason));
          if k.fault == UpdateFault {
            verdict := FailedNow;
          } else {
            ApplyTransition(id, t, k.now);
            if positions[id].state == Closed { verdict := ClosedNow; }
          }
        }
      } else if t.newHighest != p.highest || t.newTrailing != p.trailing {
        if k.fault == UpdateFault {
          verdict := FailedNow;
        } else {
          ApplyTransition(id, t, k.now);
        }
      }
    }
  }
}
