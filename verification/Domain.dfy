/** The values that travel between components (app/domain/models.py). Times are integer microseconds. */
module Domain {

  datatype Candle = Candle(open: real, high: real, low: real, close: real, ts: int, volume: real)

  /** Any other text is kept apart: the simulator and the entry price treat it differently. */
  datatype Side = Buy | Sell | OtherSide(text: string)

  datatype Signal = Signal(index: nat, side: Side, ticker: string, strategyId: string)

  /** A candle whose close lies inside its own range. */
  predicate WellFormed(c: Candle) {
    c.low <= c.close <= c.high && c.low <= c.open <= c.high
  }

  predicate AllWellFormed(cs: seq<Candle>) {
    forall i :: 0 <= i < |cs| ==> WellFormed(cs[i])
  }
}
