/** The exit state machine of app/orders/state_machine.py and the row update of app/repositories/ordering.py. */
module StateMachine {
  import opened Prelude

  datatype State = Open | HalfClosed | Closed

  datatype CloseReason = StopLoss | TakeProfitHalf | TrailingStop

  /** A row of the position table. */
  datatype Position = Position(
    ticker: string, state: State, entry: real, stop: real, takeProfit: real,
    trailing: Option<real>, highest: Option<real>, quantity: real, remaining: real,
    closedTime: Option<int>, closeReason: Option<CloseReason>)

  datatype Transition = Transition(
    newState: State, closeQty: real, reason: Option<CloseReason>, newHighest: Option<real>, newTrailing: Option<real>)

  /** `highest_price or current_price`: a missing or zero high counts as the current price. */
  function HighestOr(highest: Option<real>, price: real): real {
    if highest.None? || highest.value == 0.0 then price else highest.value
  }

  /** What to do with a position at a price; `trail` is the trailing distance, ATR times its multiplier. */
  function Decide(p: Position, price: real, trail: real): Transition {
    match p.state
    case Open =>
      if price <= p.stop then Transition(Closed, p.remaining, Some(StopLoss), p.highest, p.trailing)
      else if price >= p.takeProfit then
        Transition(HalfClosed, p.remaining / 2.0, Some(TakeProfitHalf), Some(price), Some(price - trail))
      else Transition(Open, 0.0, None, p.highest, p.trailing)
    case HalfClosed =>
      var highest := Max(HighestOr(p.highest, price), price);
      var stop := highest - trail;
      if price <= stop then Transition(Closed, p.remaining, Some(TrailingStop), Some(highest), Some(stop))
      else Transition(HalfClosed, 0.0, None, Some(highest), Some(stop))
    case Closed => Transition(Closed, 0.0, None, p.highest, p.trailing)
  }

  /** The row after a transition has been applied at time `now`. */
  function Applied(p: Position, t: Transition, now: int): Position {
    p.(state := t.newState,
       highest := t.newHighest,
       trailing := t.newTrailing,
       remaining := if t.closeQty > 0.0 then Max(p.remaining - t.closeQty, 0.0) else p.remaining,
       closedTime := if t.newState == Closed then Some(now) else p.closedTime,
       closeReason := if t.newState == Closed && t.reason.Some? then t.reason else p.closeReason)
  }

  /** A newly opened position. */
  function Opened(ticker: string, entry: real, stop: real, takeProfit: real, quantity: real): Position {
    Position(ticker, Open, entry, stop, takeProfit, None, Some(entry), quantity, quantity, None, None)
  }
}
