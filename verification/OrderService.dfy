/** Order placement with reconciliation against an arbitrary gateway (app/orders/service.py). */
module OrderService {
  import opened Prelude
  import opened RuntimeSafety

  datatype OrderResult = OrderResult(ok: bool, orderId: Option<string>, error: Option<string>)

  datatype PlaceReply = Placed(result: OrderResult) | PlaceRaised(message: string)

  datatype StatusReply = Status(known: bool, status: string) | StatusRaised(message: string)

  /** Everything outside the service: what each placement and status check answers, which alerts raise. */
  datatype World = World(place: nat -> PlaceReply, status: nat -> StatusReply, alertRaises: nat -> bool)

  datatype Call = Place | CheckStatus(orderId: string)

  datatype Outcome = Returned(result: OrderResult) | Raised

  /** One call of the service: gateway calls made, critical events raised, outcome. */
  datatype Session = Session(calls: seq<Call>, codes: seq<string>, outcome: Outcome)

  predicate HasId(r: OrderResult) {
    r.orderId.Some? && r.orderId.value != ""
  }

  /** The broker knows the order and it is alive or done. */
  predicate IsLive(s: StatusReply) {
    s.Status? && s.known && s.status in {"accepted", "partial", "filled"}
  }

  /** The placement's result; an exception counts as a failure without an id. */
  function ResultOf(p: PlaceReply): OrderResult {
    match p case Placed(r) => r case PlaceRaised(m) => OrderResult(false, None, Some(m))
  }

  function OrText(a: Option<string>, b: Option<string>): string {
    if a.Some? && a.value != "" then a.value else if b.Some? && b.value != "" then b.value else "unresolved"
  }

  /** A critical event: the alert sink may raise, which ends the call. */
  function Reported(w: World, calls: seq<Call>, codes: seq<string>, code: string, result: OrderResult): Session {
    Session(calls, codes + [code], if w.alertRaises(|codes|) then Raised else Returned(result))
  }

  function Attempt(w: World, i: nat, calls: seq<Call>, codes: seq<string>): Session {
    var r := ResultOf(w.place(i));
    if w.place(i).PlaceRaised? then
      Reported(w, calls + [Place], codes, if i == 0 then "order_place_exception" else "order_retry_exception", r)
    else Session(calls + [Place], codes, Returned(r))
  }

  /** What becomes of a failed placement with an id: a verdict, or nothing yet. */
  function Checked(w: World, i: nat, s: Session, r: OrderResult): (Session, bool)
    requires HasId(r)
  {
    var calls := s.calls + [CheckStatus(r.orderId.value)];
    match w.status(i)
    case StatusRaised(_) =>
      (Reported(w, calls, s.codes, "order_status_check_failed", OrderResult(false, r.orderId, Some("status_check_failed"))), true)
    case Status(_, _) =>
      if IsLive(w.status(i)) then (Session(calls, s.codes, Returned(OrderResult(true, r.orderId, None))), true)
      else (Session(calls, s.codes, Returned(r)), false)
  }

  /** Placement number i, followed by its status check; the flag says whether the call is settled. */
  function Stage(w: World, i: nat, s: Session): (Session, bool) {
    var a := Attempt(w, i, s.calls, s.codes);
    if a.outcome.Raised? || a.outcome.result.ok then (a, true)
    else if HasId(a.outcome.result) then Checked(w, i, a, a.outcome.result)
    else (a, false)
  }

  /** The whole protocol: at most two stages, then an unresolved verdict. */
  function Reconcile(w: World): Session {
    var (s1, settled1) := Stage(w, 0, Session([], [], Raised));
    if settled1 then s1
    else
      var (s2, settled2) := Stage(w, 1, s1);
      if settled2 then s2
      else
        var second := ResultOf(w.place(1));
        Reported(w, s2.calls, s2.codes, "order_unresolved",
                 OrderResult(false, second.orderId, Some(OrText(second.error, ResultOf(w.place(0)).error))))
  }

  function Placements(calls: seq<Call>): nat {
    if calls == [] then 0 else Placements(calls[..|calls| - 1]) + if calls[|calls| - 1] == Place then 1 else 0
  }

  /** The calls of one stage, told without its control flow. */
  ghost predicate IsTraffic(w: World, i: nat, calls: seq<Call>, settled: bool) {
    var r := ResultOf(w.place(i));
    && (calls == [Place] || (HasId(r) && calls == [Place, CheckStatus(r.orderId.value)]))
    && (!settled ==> !r.ok && (HasId(r) ==> calls == [Place, CheckStatus(r.orderId.value)]
                                            && w.status(i).Status? && !IsLive(w.status(i))))
  }

  /** The calls that stage i adds. */
  function Traffic(w: World, i: nat, s: Session): seq<Call> {
    var s' := Stage(w, i, s).0;
    if |s.calls| <= |s'.calls| then s'.calls[|s.calls|..] else []
  }

  /** The exact gateway traffic of one stage. */
  lemma StageCalls(w: World, i: nat, s: Session)
    ensures Stage(w, i, s).0.calls == s.calls + Traffic(w, i, s) && IsTraffic(w, i, Traffic(w, i, s), Stage(w, i, s).1)
  {
    var r := ResultOf(w.place(i));
    var added := if !r.ok && HasId(r) && !(w.place(i).PlaceRaised?) then [Place, CheckStatus(r.orderId.value)] else [Place];
    assert s.calls + [Place] == s.calls + added[..1];
    assert Stage(w, i, s).0.calls == s.calls + added;
  }

  /** A stage that settles without success reports a critical event, and none takes one back. */
  lemma StageCodes(w: World, i: nat, s: Session)
    ensures var (s', settled) := Stage(w, i, s);
      s.codes <= s'.codes && (settled && (s'.outcome.Raised? || !s'.outcome.result.ok) ==> |s'.codes| > |s.codes|)
  {
  }

  lemma {:induction false} PlacementsConcat(xs: seq<Call>, ys: seq<Call>)
    ensures Placements(xs + ys) == Placements(xs) + Placements(ys)
  {
    if ys == [] {
      assert xs + ys == xs;
    } else {
      PlacementsConcat(xs, ys[..|ys| - 1]);
      assert (xs + ys)[..|xs + ys| - 1] == xs + ys[..|ys| - 1];
    }
  }

  lemma TrafficPlaces(w: World, i: nat, calls: seq<Call>, settled: bool)
    requires IsTraffic(w, i, calls, settled)
    ensures Placements(calls) == 1
  {
    assert [Place][..0] == [];
    if |calls| == 2 { assert calls[..1] == [Place]; }
  }

  /** The calls of the whole protocol: one stage's or two stages'. */
  lemma ReconcileCalls(w: World) returns (first: seq<Call>, second: seq<Call>, settled: bool)
    ensures IsTraffic(w, 0, first, settled) && (settled <==> second == [])
    ensures second != [] ==> exists done :: IsTraffic(w, 1, second, done)
    ensures Reconcile(w).calls == first + second
    ensures settled == Stage(w, 0, Session([], [], Raised)).1
  {
    var s0 := Session([], [], Raised);
    var (s1, done) := Stage(w, 0, s0);
    StageCalls(w, 0, s0);
    StageCalls(w, 1, s1);
    first, settled := Traffic(w, 0, s0), done;
    assert [] + first == first;
    second := if settled then [] else Traffic(w, 1, s1);
    assert settled ==> first + second == first;
    assert !settled ==> IsTraffic(w, 1, second, Stage(w, 1, s1).1);
  }

  /** Never more than two placements, whatever the gateway does. */
  lemma AtMostTwoPlacements(w: World)
    ensures 1 <= Placements(Reconcile(w).calls) <= 2
    ensures Placements(Reconcile(w).calls) == 2 <==> !Stage(w, 0, Session([], [], Raised)).1
  {
    var first, second, settled := ReconcileCalls(w);
    PlacementsConcat(first, second);
    TrafficPlaces(w, 0, first, settled);
    if second != [] {
      var done :| IsTraffic(w, 1, second, done);
      TrafficPlaces(w, 1, second, done);
    }
  }

  /**
   The first placement went through, or its status check raised or found the order live. A placement that raised,
   or failed without an id, is never checked and never stands, although its order may have reached the broker.
   */
  predicate FirstStands(w: World) {
    var r := ResultOf(w.place(0));
    r.ok || (HasId(r) && (w.status(0).StatusRaised? || IsLive(w.status(0))))
  }

  /**
   A second placement is made exactly when the first one does not stand (and no alert exception ended the call); a
   raising status check therefore forbids the retry.
   */
  lemma RetryExactly(w: World)
    ensures Placements(Reconcile(w).calls) == 2 <==> !FirstStands(w) && !(w.place(0).PlaceRaised? && w.alertRaises(0))
  {
    AtMostTwoPlacements(w);
  }

  /**
   The order is placed again without a status check in between exactly when the first placement failed without an
   id, which includes every placement that raised (and no alert exception ended the call).
   */
  lemma UncheckedRetryExactly(w: World)
    ensures [Place, Place] <= Reconcile(w).calls
            <==> !ResultOf(w.place(0)).ok && !HasId(ResultOf(w.place(0))) && !(w.place(0).PlaceRaised? && w.alertRaises(0))
  {
    var first, second, settled := ReconcileCalls(w);
    var calls := Reconcile(w).calls;
    if second != [] {
      var done :| IsTraffic(w, 1, second, done);
      assert calls[|first|] == second[0] == Place;
    }
    if |first| == 2 { assert calls[1] == first[1]; }
    assert [Place, Place] <= calls <==> |calls| >= 2 && calls[1] == Place;
  }

  /** A placement times out after it was sent, is placed again unchecked, and only the second order is reported. */
  lemma TimeoutIsRetriedUnchecked() returns (w: World)
    ensures w.place(0) == PlaceRaised("timeout") && Reconcile(w).calls == [Place, Place]
    ensures Reconcile(w).outcome == Returned(OrderResult(true, Some("B"), None))
  {
    var second := OrderResult(true, Some("B"), None);
    w := World(i => if i == 0 then PlaceRaised("timeout") else Placed(second), i => Status(false, ""), i => false);
    var failed := OrderResult(false, None, Some("timeout"));
    var s1 := Session([Place], ["order_place_exception"], Returned(failed));
    assert ResultOf(w.place(0)) == failed && !w.alertRaises(0);
    assert Reported(w, [] + [Place], [], "order_place_exception", failed) == s1;
    assert Stage(w, 0, Session([], [], Raised)) == (s1, false);
    assert ResultOf(w.place(1)) == second;
    assert Stage(w, 1, s1) == (Session([Place] + [Place], s1.codes, Returned(second)), true);
  }

  /** Before the second placement, a failed first one with an id has been checked. */
  lemma CheckedBeforeRetry(w: World)
    requires Placements(Reconcile(w).calls) == 2 && HasId(ResultOf(w.place(0)))
    ensures [Place, CheckStatus(ResultOf(w.place(0)).orderId.value), Place] <= Reconcile(w).calls
  {
    AtMostTwoPlacements(w);
    var first, second, settled := ReconcileCalls(w);
    var done :| IsTraffic(w, 1, second, done);
    assert second[0] == Place;
  }

  /** Success is never reported out of thin air: some placement succeeded or its order was confirmed alive. */
  lemma OkMeansAlive(w: World)
    ensures Reconcile(w).outcome.Returned? && Reconcile(w).outcome.result.ok ==>
      exists i: nat :: i < 2 && (ResultOf(w.place(i)).ok || (HasId(ResultOf(w.place(i))) && IsLive(w.status(i))))
  {
    var (s1, settled1) := Stage(w, 0, Session([], [], Raised));
    var r0, r1 := ResultOf(w.place(0)), ResultOf(w.place(1));
    assert r0.ok || (HasId(r0) && IsLive(w.status(0))) || r1.ok || (HasId(r1) && IsLive(w.status(1)))
      || !(Reconcile(w).outcome.Returned? && Reconcile(w).outcome.result.ok);
  }

  /** Every outcome other than success has reported at least one critical event. */
  lemma NotOkIsCritical(w: World)
    ensures Reconcile(w).outcome.Raised? || !Reconcile(w).outcome.result.ok ==> Reconcile(w).codes != []
  {
    StageCodes(w, 0, Session([], [], Raised));
    var (s1, settled1) := Stage(w, 0, Session([], [], Raised));
    StageCodes(w, 1, s1);
  }

  /* ---- The answers, told without the protocol's own vocabulary ---- */

  /** Placement i was refused but got the id. */
  predicate Refused(w: World, i: nat, id: string) {
    w.place(i).Placed? && !w.place(i).result.ok && w.place(i).result.orderId == Some(id) && id != ""
  }

  /** The broker knows the order, and says it is accepted, partly filled or filled. */
  predicate SaysAlive(reply: StatusReply) {
    && reply.Status? && reply.known
    && (reply.status == "accepted" || reply.status == "partial" || reply.status == "filled")
  }

  /** A first placement that succeeds is the whole call. */
  lemma FirstSucceeds(w: World)
    requires w.place(0).Placed? && w.place(0).result.ok
    ensures Reconcile(w) == Session([Place], [], Returned(w.place(0).result))
  {
    assert [] + [Place] == [Place];
  }

  /** A refused first placement that the broker calls alive is a success, with one placement and no event. */
  lemma FirstIsAlive(w: World, id: string)
    requires Refused(w, 0, id) && SaysAlive(w.status(0))
    ensures Reconcile(w) == Session([Place, CheckStatus(id)], [], Returned(OrderResult(true, Some(id), None)))
  {
    assert [] + [Place] + [CheckStatus(id)] == [Place, CheckStatus(id)];
  }

  /** Any other status, or an unknown order, gets the second placement. */
  lemma FirstIsDead(w: World, id: string)
    requires Refused(w, 0, id) && w.status(0).Status? && !SaysAlive(w.status(0))
    ensures Placements(Reconcile(w).calls) == 2 && [Place, CheckStatus(id), Place] <= Reconcile(w).calls
  {
    AtMostTwoPlacements(w);
    CheckedBeforeRetry(w);
  }

  /** A refusal without an id, or with an empty one, is placed again at once. */
  lemma FirstHasNoId(w: World)
    requires w.place(0).Placed? && !w.place(0).result.ok
    requires w.place(0).result.orderId == None || w.place(0).result.orderId == Some("")
    ensures [Place, Place] <= Reconcile(w).calls
  {
    UncheckedRetryExactly(w);
  }

  /** A status check that raises ends the call with its own event and error. */
  lemma FirstCheckRaises(w: World, id: string)
    requires Refused(w, 0, id) && w.status(0).StatusRaised?
    ensures var failed := OrderResult(false, Some(id), Some("status_check_failed"));
      Reconcile(w) == Session([Place, CheckStatus(id)], ["order_status_check_failed"],
                              if w.alertRaises(0) then Raised else Returned(failed))
  {
    assert [] + [Place] + [CheckStatus(id)] == [Place, CheckStatus(id)];
    assert [] + ["order_status_check_failed"] == ["order_status_check_failed"];
  }

  /** After a first placement that raised, the call goes on with that event, unless its alert raises too. */
  lemma FirstRaises(w: World)
    requires w.place(0).PlaceRaised?
    ensures ["order_place_exception"] <= Reconcile(w).codes
    ensures w.alertRaises(0) ==> Reconcile(w) == Session([Place], ["order_place_exception"], Raised)
  {
    var s1 := Stage(w, 0, Session([], [], Raised)).0;
    assert [] + [Place] == [Place] && [] + ["order_place_exception"] == ["order_place_exception"];
    assert s1.codes == ["order_place_exception"];
    StageCodes(w, 1, s1);
  }

  /** The second placement's answer, or that of its status check, is the call's if it is a success. */
  lemma SecondSucceeds(w: World, id: string)
    requires Placements(Reconcile(w).calls) == 2
    ensures w.place(1).Placed? && w.place(1).result.ok ==> Reconcile(w).outcome == Returned(w.place(1).result)
    ensures Refused(w, 1, id) && SaysAlive(w.status(1)) ==> Reconcile(w).outcome == Returned(OrderResult(true, Some(id), None))
  {
    AtMostTwoPlacements(w);
  }

  /** A second refusal that is not alive is unresolved, under the second order's id and with the last error known. */
  lemma SecondIsDead(w: World, id: string)
    requires Placements(Reconcile(w).calls) == 2 && Refused(w, 1, id) && w.status(1).Status? && !SaysAlive(w.status(1))
    ensures var codes := Reconcile(w).codes;
      && codes != [] && codes[|codes| - 1] == "order_unresolved"
      && if w.alertRaises(|codes| - 1) then Reconcile(w).outcome.Raised?
         else Reconcile(w).outcome == Returned(OrderResult(false, Some(id), Some(LastError(w))))
  {
    AtMostTwoPlacements(w);
  }

  /** The second placement's error if it has one, else the first one's, else the word "unresolved". */
  function LastError(w: World): string {
    match (ErrorOf(w.place(1)), ErrorOf(w.place(0)))
    case (Some(second), _) => second
    case (None, Some(first)) => first
    case (None, None) => "unresolved"
  }

  /** The text of a failure; an empty text counts as none. */
  function ErrorOf(reply: PlaceReply): Option<string> {
    match reply
    case PlaceRaised(message) => if message == "" then None else Some(message)
    case Placed(OrderResult(_, _, Some(text))) => if text == "" then None else Some(text)
    case _ => None
  }

  /** A second status check that raises has its own event and error. */
  lemma SecondCheckRaises(w: World, id: string)
    requires Placements(Reconcile(w).calls) == 2 && Refused(w, 1, id) && w.status(1).StatusRaised?
    ensures var codes := Reconcile(w).codes;
      && codes != [] && codes[|codes| - 1] == "order_status_check_failed"
      && (!w.alertRaises(|codes| - 1) ==>
            Reconcile(w).outcome == Returned(OrderResult(false, Some(id), Some("status_check_failed"))))
  {
    AtMostTwoPlacements(w);
  }

  /** A second placement that raises has its own event and leaves the order unresolved, without an id. */
  lemma SecondRaises(w: World)
    requires Placements(Reconcile(w).calls) == 2 && w.place(1).PlaceRaised?
    ensures "order_retry_exception" in Reconcile(w).codes
    ensures Reconcile(w).outcome.Returned? ==>
              Reconcile(w).outcome == Returned(OrderResult(false, None, Some(LastError(w))))
  {
    AtMostTwoPlacements(w);
  }

  /** The gateway, as a log of the calls made to it. */
  class Gateway {
    const world: World
    var calls: seq<Call>

    constructor (world: World)
      ensures this.world == world && calls == []
    {
      this.world, calls := world, [];
    }

    method PlaceOrder(i: nat) returns (r: PlaceReply)
      modifies this
      ensures calls == old(calls) + [Place] && r == world.place(i)
    {
      calls := calls + [Place];
      r := world.place(i);
    }

    method GetOrderStatus(i: nat, id: string) returns (r: StatusReply)
      modifies this
      ensures calls == old(calls) + [CheckStatus(id)] && r == world.status(i)
    {
      calls := calls + [CheckStatus(id)];
      r := world.status(i);
    }
  }

  class Service {
    const gateway: Gateway
    const safety: RuntimeSafetyManager

    constructor (gateway: Gateway, safety: RuntimeSafetyManager)
      ensures this.gateway == gateway && this.safety == safety
    {
      this.gateway, this.safety := gateway, safety;
    }

    /**
     One order. Gateway traffic and outcome are those of the protocol, every event it reports ends up in
     the buffer's history, and any outcome but success leaves the runtime halted.
     */
    method PlaceWithReconcile() returns (outcome: Outcome)
      requires gateway.calls == [] && safety.Valid()
      modifies gateway, safety, safety.runtime
      ensures safety.Valid()
      ensures outcome == Reconcile(gateway.world).outcome
      ensures gateway.calls == Reconcile(gateway.world).calls
      ensures safety.history == old(safety.history) + Reconcile(gateway.world).codes
      ensures outcome.Raised? || !outcome.result.ok ==> safety.runtime.halted && safety.runtime.allPaused
    {
      NotOkIsCritical(gateway.world);
      ghost var s := Session([], [], Raised);
      ghost var base := safety.history;
      var settled, reported;
      outcome, settled, reported := RunStage(0, 0, s, base);
      s := Stage(gateway.world, 0, s).0;
      if settled { return; }
      var first := ResultOf(gateway.world.place(0));
      outcome, settled, reported := RunStage(1, reported, s, base);
      s := Stage(gateway.world, 1, s).0;
      if settled { return; }
      var second := ResultOf(gateway.world.place(1));
      outcome := Report("order_unresolved", reported,
                        OrderResult(false, second.orderId, Some(OrText(second.error, first.error))));
    }

    /** One placement and, for a failure with an id, its status check. */
    method RunStage(i: nat, reported: nat, ghost s: Session, ghost base: seq<string>)
      returns (outcome: Outcome, settled: bool, reported': nat)
      requires safety.Valid() && gateway.calls == s.calls && safety.history == base + s.codes
      requires reported == |s.codes| && (reported > 0 ==> safety.runtime.halted && safety.runtime.allPaused)
      modifies gateway, safety, safety.runtime
      ensures var (s', settled') := Stage(gateway.world, i, s);
        gateway.calls == s'.calls && safety.history == base + s'.codes && reported' == |s'.codes|
        && outcome == s'.outcome && settled == settled'
      ensures safety.Valid() && (reported' > 0 ==> safety.runtime.halted && safety.runtime.allPaused)
    {
      reported' := reported;
      var reply := gateway.PlaceOrder(i);
      var r := ResultOf(reply);
      outcome, settled := Returned(r), true;
      if reply.PlaceRaised? {
        outcome := Report(if i == 0 then "order_place_exception" else "order_retry_exception", reported', r);
        reported' := reported' + 1;
        if outcome.Raised? { return; }
      }
      if r.ok { return; }
      settled := false;
      if HasId(r) {
        var st := gateway.GetOrderStatus(i, r.orderId.value);
        if st.StatusRaised? {
          outcome := Report("order_status_check_failed", reported', OrderResult(false, r.orderId, Some("status_check_failed")));
          settled, reported' := true, reported' + 1;
        } else if IsLive(st) {
          outcome, settled := Returned(OrderResult(true, r.orderId, None)), true;
        }
      }
    }

    /** Reports a critical event; the alert for it may raise, after the runtime has been halted. */
    method Report(code: string, n: nat, result: OrderResult) returns (outcome: Outcome)
      requires safety.Valid()
      modifies safety, safety.runtime
      ensures safety.Valid() && safety.history == old(safety.history) + [code]
      ensures safety.runtime.halted && safety.runtime.allPaused
      ensures outcome == if gateway.world.alertRaises(n) then Raised else Returned(result)
    {
      safety.Critical(code);
      outcome := if gateway.world.alertRaises(n) then Raised else Returned(result);
    }
  }
}
