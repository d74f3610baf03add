/** Bar-close scheduling, slot de-duplication and the signal queue (app/loops/loop_b_runtime.py, app/loops/core.py). */
module LoopB {
  import opened Prelude

  datatype Timeframe = M3 | M5 | M15 | M60 | D1

  /** Wall-clock time: a day number, hour and minute. */
  datatype Clock = Clock(day: int, hour: nat, minute: nat)

  predicate IsClock(c: Clock) {
    c.hour < 24 && c.minute < 60
  }

  function MinuteOf(c: Clock): int {
    (c.day * 24 + c.hour) * 60 + c.minute
  }

  /** The timeframes whose bar closes at this minute. */
  function DueTimeframes(c: Clock): seq<Timeframe> {
    if (c.hour == 8 && 30 <= c.minute < 60) || (c.hour == 15 && 20 <= c.minute < 30) then []
    else
      var total := c.hour * 60 + c.minute;
      if total < 8 * 60 || total > 20 * 60 then []
      else
        (if c.minute % 3 == 0 then [M3] else [])
        + (if c.minute % 5 == 0 then [M5] else [])
        + (if c.minute % 15 == 0 then [M15] else [])
        + (if c.minute == 0 then [M60] else [])
        + (if c.hour == 15 && c.minute == 30 then [D1] else [])
  }

  /** The slot a minute belongs to: the fields its key prints, with what the key leaves out set to zero. */
  function SlotKey(c: Clock, t: Timeframe): Clock {
    match t
    case D1 => Clock(c.day, 0, 0)
    case M60 => Clock(c.day, c.hour, 0)
    case M15 => Clock(c.day, c.hour, c.minute / 15 * 15)
    case M3 => Clock(c.day, c.hour, c.minute / 3 * 3)
    case M5 => Clock(c.day, c.hour, c.minute / 5 * 5)
  }

  /** Length of a bar, in minutes. */
  function Width(t: Timeframe): int {
    match t case M3 => 3 case M5 => 5 case M15 => 15 case M60 => 60 case D1 => 1440
  }

  /** A slot starts at a multiple of the bar length, at most one bar before the moment it stands for. */
  lemma SlotStart(c: Clock, t: Timeframe)
    requires IsClock(c)
    ensures IsClock(SlotKey(c, t))
    ensures MinuteOf(SlotKey(c, t)) == MinuteOf(c) / Width(t) * Width(t)
  {
    match t {
      case D1 => assert MinuteOf(c) / 1440 == c.day;
      case M60 => assert MinuteOf(c) / 60 == c.day * 24 + c.hour;
      case M15 => assert MinuteOf(c) / 15 == (c.day * 24 + c.hour) * 4 + c.minute / 15;
      case M5 => assert MinuteOf(c) / 5 == (c.day * 24 + c.hour) * 12 + c.minute / 5;
      case M3 => assert MinuteOf(c) / 3 == (c.day * 24 + c.hour) * 20 + c.minute / 3;
    }
  }

  lemma MinuteInjective(a: Clock, b: Clock)
    requires IsClock(a) && IsClock(b) && MinuteOf(a) == MinuteOf(b)
    ensures a == b
  {
    assert MinuteOf(a) / 60 == a.day * 24 + a.hour && MinuteOf(b) / 60 == b.day * 24 + b.hour;
  }

  /** Two moments share a slot exactly when they fall into the same bar. */
  lemma SlotIsBar(a: Clock, b: Clock, t: Timeframe)
    requires IsClock(a) && IsClock(b)
    ensures SlotKey(a, t) == SlotKey(b, t) <==> MinuteOf(a) / Width(t) == MinuteOf(b) / Width(t)
  {
    SlotStart(a, t);
    SlotStart(b, t);
    if MinuteOf(SlotKey(a, t)) == MinuteOf(SlotKey(b, t)) { MinuteInjective(SlotKey(a, t), SlotKey(b, t)); }
  }

  /** Slots never move back while the clock does not. */
  lemma SlotMonotone(a: Clock, b: Clock, t: Timeframe)
    requires IsClock(a) && IsClock(b) && MinuteOf(a) <= MinuteOf(b)
    ensures MinuteOf(SlotKey(a, t)) <= MinuteOf(SlotKey(b, t))
  {
    SlotStart(a, t);
    SlotStart(b, t);
    match t
    case D1 => assert Width(t) == 1440;
    case M60 => assert Width(t) == 60;
    case M15 => assert Width(t) == 15;
    case M5 => assert Width(t) == 5;
    case M3 => assert Width(t) == 3;
  }

  /** Minutes in which screening runs at all: 8:00 to 20:00 without the two call auctions. */
  predicate InSession(c: Clock) {
    var m := c.hour * 60 + c.minute;
    480 <= m <= 1200 && !(510 <= m < 540) && !(920 <= m < 930)
  }

  lemma Remainder(x: int, w: nat, q: int, r: int)
    requires w > 0 && x == q * w + r && 0 <= r < w
    ensures x % w == r
  {
    WholeSteps(q, x / w, w);
    WholeSteps(x / w, q, w);
  }

  /** Bar boundaries of intraday timeframes are the same in every hour. */
  lemma BoundaryInHour(c: Clock, t: Timeframe)
    requires IsClock(c) && t != D1
    ensures MinuteOf(c) % Width(t) == c.minute % Width(t)
  {
    var h, m := c.day * 24 + c.hour, c.minute;
    match t
    case M60 => Remainder(MinuteOf(c), 60, h, m);
    case M15 => Remainder(MinuteOf(c), 15, h * 4 + m / 15, m % 15);
    case M5 => Remainder(MinuteOf(c), 5, h * 12 + m / 5, m % 5);
    case M3 => Remainder(MinuteOf(c), 3, h * 20 + m / 3, m % 3);
  }

  /** A timeframe is due in a session minute exactly when one of its bars closes; a day closes at 15:30. */
  lemma DueIsBarClose(c: Clock, t: Timeframe)
    requires IsClock(c)
    ensures t in DueTimeframes(c) <==>
      InSession(c) && if t == D1 then c.hour == 15 && c.minute == 30 else MinuteOf(c) % Width(t) == 0
  {
    if t != D1 { BoundaryInHour(c, t); }
  }

  /** Due timeframes come shortest bar first, each once. */
  lemma DueShortestFirst(c: Clock, i: nat, j: nat)
    requires i < j < |DueTimeframes(c)|
    ensures Width(DueTimeframes(c)[i]) < Width(DueTimeframes(c)[j])
  {
  }

  /** So an intraday timeframe is only ever attempted in the very minute its slot names. */
  lemma DueSlotIsNow(c: Clock, t: Timeframe)
    requires IsClock(c) && t != D1 && t in DueTimeframes(c)
    ensures SlotKey(c, t) == c
  {
    DueIsBarClose(c, t);
  }

  /* ---- De-duplication over runs ---- */

  /** What synchronising and scanning one timeframe came to. */
  datatype Scan = Scanned(signals: nat) | StorageFailed | OtherFailure

  datatype Key = Key(ticker: string, timeframe: Timeframe)

  /** A batch of signals put on the queue: for which key and slot. */
  datatype Batch = Batch(key: Key, slot: Clock, signals: nat)

  datatype State = State(processed: map<Key, Clock>, batches: seq<Batch>)

  /** One attempt at one timeframe of one ticker. */
  datatype Attempt = Attempt(key: Key, now: Clock, scan: Scan)

  /** A remembered slot is skipped; a storage failure or any other exception leaves it unremembered. */
  function Attempted(s: State, a: Attempt): State {
    var slot := SlotKey(a.now, a.key.timeframe);
    if a.key in s.processed && s.processed[a.key] == slot then s
    else match a.scan
      case Scanned(n) => State(s.processed[a.key := slot], s.batches + [Batch(a.key, slot, n)])
      case _ => s
  }

  function Run(as_: seq<Attempt>, n: nat): State
    requires n <= |as_|
  {
    if n == 0 then State(map[], []) else Attempted(Run(as_, n - 1), as_[n - 1])
  }

  function SlotOf(a: Attempt): Clock {
    SlotKey(a.now, a.key.timeframe)
  }

  /** Two batches of one key and slot. */
  ghost predicate Repeats(bs: seq<Batch>) {
    exists i, j :: 0 <= i < j < |bs| && bs[i].key == bs[j].key && bs[i].slot == bs[j].slot
  }

  ghost predicate Returning(as_: seq<Attempt>, i: nat, j: nat, k: nat) {
    && i < j < k < |as_| && as_[i].key == as_[j].key == as_[k].key
    && SlotOf(as_[i]) == SlotOf(as_[k]) != SlotOf(as_[j])
  }

  /** Some key is attempted in one slot, in another one, and in the first one again. */
  ghost predicate Returns(as_: seq<Attempt>) {
    exists i: nat, j: nat, k: nat :: Returning(as_, i, j, k)
  }

  /* ---- Without a return nothing repeats ---- */

  /** Batch b was put on the queue at attempt i; attempt c made the slot that is remembered for its key now. */
  ghost predicate Traced(as_: seq<Attempt>, n: nat, s: State, b: Batch, i: nat, c: nat) {
    && i <= c < n <= |as_| && as_[i].key == as_[c].key == b.key && SlotOf(as_[i]) == b.slot
    && b.key in s.processed && SlotOf(as_[c]) == s.processed[b.key]
  }

  ghost predicate HasTrace(as_: seq<Attempt>, n: nat, s: State, b: Batch) {
    exists i: nat, c: nat :: Traced(as_, n, s, b, i, c)
  }

  ghost predicate AllTraced(as_: seq<Attempt>, n: nat, s: State) {
    forall b :: b in s.batches ==> HasTrace(as_, n, s, b)
  }

  lemma AttemptTraced(as_: seq<Attempt>, n: nat, s: State)
    requires n < |as_| && AllTraced(as_, n, s)
    ensures AllTraced(as_, n + 1, Attempted(s, as_[n]))
  {
    var a, s' := as_[n], Attempted(s, as_[n]);
    forall b | b in s'.batches ensures HasTrace(as_, n + 1, s', b) {
      if b in s.batches {
        var i: nat, c: nat :| Traced(as_, n, s, b, i, c);
        assert Traced(as_, n + 1, s', b, i, if s'.processed[b.key] == s.processed[b.key] then c else n);
      } else {
        assert Traced(as_, n + 1, s', b, n, n);
      }
    }
  }

  /** A batch repeats an earlier one only when its key has returned to a slot. */
  lemma NewBatchRepeats(as_: seq<Attempt>, n: nat, s: State, b: Batch)
    requires n < |as_| && AllTraced(as_, n, s) && b in s.batches
    requires Attempted(s, as_[n]) != s && b.key == as_[n].key && b.slot == SlotOf(as_[n])
    ensures Returns(as_)
  {
    var i: nat, c: nat :| Traced(as_, n, s, b, i, c);
    assert Returning(as_, i, c, n);
  }

  lemma {:induction false} NoReturnNoRepeat(as_: seq<Attempt>, n: nat)
    requires n <= |as_| && !Returns(as_)
    ensures AllTraced(as_, n, Run(as_, n)) && !Repeats(Run(as_, n).batches)
  {
    if n > 0 {
      NoReturnNoRepeat(as_, n - 1);
      var s, s' := Run(as_, n - 1), Run(as_, n);
      AttemptTraced(as_, n - 1, s);
      forall i, j | 0 <= i < j < |s'.batches| ensures !(s'.batches[i].key == s'.batches[j].key && s'.batches[i].slot == s'.batches[j].slot) {
        if j == |s.batches| && s.batches[i].key == s'.batches[j].key && s.batches[i].slot == s'.batches[j].slot {
          NewBatchRepeats(as_, n - 1, s, s.batches[i]);
        }
      }
    }
  }

  /* ---- A return can repeat a batch ---- */

  /** The same attempts with other scan results. */
  function WithScans(as_: seq<Attempt>, scans: seq<Scan>): (r: seq<Attempt>)
    requires |scans| == |as_|
    ensures |r| == |as_| && forall i :: 0 <= i < |r| ==> r[i] == as_[i].(scan := scans[i])
  {
    seq(|as_|, i requires 0 <= i < |as_| => as_[i].(scan := scans[i]))
  }

  lemma {:induction false} FailuresChangeNothing(as_: seq<Attempt>, m: nat, n: nat)
    requires m <= n <= |as_| && forall i :: m <= i < n ==> !as_[i].scan.Scanned?
    ensures Run(as_, n) == Run(as_, m)
  {
    if m < n { FailuresChangeNothing(as_, m, n - 1); }
  }

  lemma OneSuccess(as_: seq<Attempt>, m: nat, k: nat, s: State)
    requires m <= k < |as_| && Run(as_, m) == s && as_[k].scan == Scanned(1)
    requires forall i :: m <= i < k ==> !as_[i].scan.Scanned?
    requires as_[k].key in s.processed ==> s.processed[as_[k].key] != SlotOf(as_[k])
    ensures Run(as_, k + 1)
            == State(s.processed[as_[k].key := SlotOf(as_[k])], s.batches + [Batch(as_[k].key, SlotOf(as_[k]), 1)])
  {
    FailuresChangeNothing(as_, m, k);
  }

  ghost predicate Silent(as_: seq<Attempt>, m: nat, n: nat) {
    n <= |as_| && forall i :: m <= i < n ==> !as_[i].scan.Scanned?
  }

  lemma TwoBatches(as_: seq<Attempt>, i: nat, j: nat, key: Key, slot: Clock, other: Clock)
    requires i < j < |as_| && Silent(as_, 0, i) && Silent(as_, i + 1, j) && slot != other
    requires as_[i] == Attempt(key, as_[i].now, Scanned(1)) && SlotOf(as_[i]) == slot
    requires as_[j] == Attempt(key, as_[j].now, Scanned(1)) && SlotOf(as_[j]) == other
    ensures Run(as_, j + 1) == State(map[key := other], [Batch(key, slot, 1), Batch(key, other, 1)])
  {
    OneSuccess(as_, 0, i, State(map[], []));
    var s := State(map[key := slot], [Batch(key, slot, 1)]);
    assert Run(as_, i + 1) == s;
    OneSuccess(as_, i + 1, j, s);
    assert s.processed[key := other] == map[key := other];
  }

  /** If only the three attempts of a return succeed, the third one repeats the first one's batch. */
  lemma ReturnRepeats(as_: seq<Attempt>, i: nat, j: nat, k: nat, key: Key, slot: Clock, other: Clock)
    requires i < j < k < |as_| && slot != other
    requires Silent(as_, 0, i) && Silent(as_, i + 1, j) && Silent(as_, j + 1, k) && Silent(as_, k + 1, |as_|)
    requires as_[i] == Attempt(key, as_[i].now, Scanned(1)) && SlotOf(as_[i]) == slot
    requires as_[j] == Attempt(key, as_[j].now, Scanned(1)) && SlotOf(as_[j]) == other
    requires as_[k] == Attempt(key, as_[k].now, Scanned(1)) && SlotOf(as_[k]) == slot
    ensures Repeats(Run(as_, |as_|).batches)
  {
    TwoBatches(as_, i, j, key, slot, other);
    var s := State(map[key := other], [Batch(key, slot, 1), Batch(key, other, 1)]);
    OneSuccess(as_, j + 1, k, s);
    FailuresChangeNothing(as_, k + 1, |as_|);
    var bs := s.batches + [Batch(key, slot, 1)];
    assert bs[0] == bs[2] && Repeats(bs);
  }

  /** Whatever the scans come to, these keys and clock readings put no (key, slot) on the queue twice. */
  ghost predicate NeverRepeats(as_: seq<Attempt>) {
    forall scans: seq<Scan> :: |scans| == |as_| ==> !Repeats(Run(WithScans(as_, scans), |as_|).batches)
  }

  /**
   For any keys and clock readings, whatever the scans come to: no (ticker, timeframe, slot) is put on the
   queue twice if and only if no key is attempted in a slot that it has left before.
   */
  lemma RepeatsExactly(as_: seq<Attempt>)
    ensures NeverRepeats(as_) <==> !Returns(as_)
  {
    if i: nat, j: nat, k: nat :| Returning(as_, i, j, k) {
      var scans := seq(|as_|, m => if m == i || m == j || m == k then Scanned(1) else StorageFailed);
      ReturnRepeats(WithScans(as_, scans), i, j, k, as_[i].key, SlotOf(as_[i]), SlotOf(as_[j]));
    } else {
      forall scans: seq<Scan> | |scans| == |as_| ensures !Repeats(Run(WithScans(as_, scans), |as_|).batches) {
        var bs := WithScans(as_, scans);
        forall i: nat, j: nat, k: nat ensures !Returning(bs, i, j, k) {
          assert !Returning(as_, i, j, k);
        }
        NoReturnNoRepeat(bs, |bs|);
      }
    }
  }

  /** The clock is a clock, and does not go back. */
  ghost predicate Forward(as_: seq<Attempt>) {
    && (forall i :: 0 <= i < |as_| ==> IsClock(as_[i].now))
    && (forall i, j :: 0 <= i <= j < |as_| ==> MinuteOf(as_[i].now) <= MinuteOf(as_[j].now))
  }

  /** A clock that does not go back returns to no slot. */
  lemma ForwardNeverReturns(as_: seq<Attempt>)
    requires Forward(as_)
    ensures !Returns(as_)
  {
    forall i: nat, j: nat, k: nat ensures !Returning(as_, i, j, k) {
      if i < j < k < |as_| && as_[i].key == as_[j].key == as_[k].key && SlotOf(as_[i]) == SlotOf(as_[k]) {
        var t := as_[i].key.timeframe;
        SlotMonotone(as_[i].now, as_[j].now, t);
        SlotMonotone(as_[j].now, as_[k].now, t);
        SlotStart(as_[i].now, t);
        SlotStart(as_[j].now, t);
        MinuteInjective(SlotOf(as_[i]), SlotOf(as_[j]));
      }
    }
  }

  /**
   Under a clock that does not go back, and with storage and fetch failures anywhere, each (ticker,
   timeframe, slot) puts its signals on the queue at most once, although only the last slot is remembered.
   */
  lemma OneBatchPerSlot(as_: seq<Attempt>, n: nat, i: nat, j: nat)
    requires Forward(as_) && n <= |as_| && i < j < |Run(as_, n).batches|
    ensures var bs := Run(as_, n).batches; !(bs[i].key == bs[j].key && bs[i].slot == bs[j].slot)
  {
    ForwardNeverReturns(as_);
    NoReturnNoRepeat(as_, n);
  }

  function BackAndForth(k: Key): seq<Attempt> {
    [Attempt(k, Clock(0, 9, 10), Scanned(1)), Attempt(k, Clock(0, 9, 5), Scanned(1)), Attempt(k, Clock(0, 9, 10), Scanned(1))]
  }

  /** A clock that goes back one bar and forth again repeats a batch. */
  lemma BackwardClockRepeats(k: Key)
    requires k.timeframe == M5
    ensures var bs := Run(BackAndForth(k), 3).batches; |bs| == 3 && bs[0] == bs[2]
    ensures !Forward(BackAndForth(k)) && Returning(BackAndForth(k), 0, 1, 2)
  {
    var tries := BackAndForth(k);
    assert Run(tries, 0) == State(map[], []);
    assert Run(tries, 1).batches == [Batch(k, Clock(0, 9, 10), 1)];
    assert Run(tries, 2).batches == [Batch(k, Clock(0, 9, 10), 1), Batch(k, Clock(0, 9, 5), 1)];
    assert MinuteOf(tries[0].now) > MinuteOf(tries[1].now);
  }

  lemma {:induction false} RunPrefix(xs: seq<Attempt>, ys: seq<Attempt>, n: nat)
    requires n <= |xs|
    ensures Run(xs + ys, n) == Run(xs, n)
  {
    if n > 0 { RunPrefix(xs, ys, n - 1); }
  }

  /* ---- The queue and the runner ---- */

  class SignalQueue<T> {
    var items: seq<T>
    /** Everything ever put on the queue, and everything ever taken off. */
    ghost var put: seq<T>
    ghost var taken: seq<T>

    constructor ()
      ensures Valid() && items == [] && put == [] && taken == []
    {
      items, put, taken := [], [], [];
    }

    /** First in, first out, nothing lost and nothing twice. */
    ghost predicate Valid()
      reads this
    {
      put == taken + items
    }

    method PutMany(signals: seq<T>)
      requires Valid()
      modifies this
      ensures Valid() && put == old(put) + signals && taken == old(taken) && items == old(items) + signals
    {
      items := items + signals;
      put := put + signals;
    }

    /** Loop A's end of the queue: the next signal in order, if any. */
    method PopOne() returns (r: Option<T>)
      requires Valid()
      modifies this
      ensures Valid() && put == old(put)
      ensures old(items) == [] ==> r == None && taken == old(taken)
      ensures old(items) != [] ==> r == Some(old(put)[|old(taken)|]) && taken == old(taken) + [old(put)[|old(taken)|]]
    {
      if items == [] { return None; }
      r := Some(items[0]);
      taken := taken + [items[0]];
      items := items[1..];
    }
  }

  /** The attempts of one tick for one ticker, in due order. */
  function AttemptsOf(ticker: string, now: Clock, due: seq<Timeframe>, scans: Timeframe -> Scan): (r: seq<Attempt>)
    ensures |r| == |due|
    ensures forall i :: 0 <= i < |due| ==> r[i] == Attempt(Key(ticker, due[i]), now, scans(due[i]))
  {
    seq(|due|, i requires 0 <= i < |due| => Attempt(Key(ticker, due[i]), now, scans(due[i])))
  }

  class LoopBRunner {
    var processed: map<Key, Clock>
    ghost var batches: seq<Batch>
    /** Every attempt ever made, over all ticks and tickers. */
    ghost var log: seq<Attempt>

    constructor ()
      ensures Valid() && log == [] && batches == []
    {
      processed, batches, log := map[], [], [];
    }

    /** The runner is where its attempts have taken it, so the theorems about Run hold for it. */
    ghost predicate Valid()
      reads this
    {
      State(processed, batches) == Run(log, |log|)
    }

    /**
     One tick for one ticker. Storage failures skip a timeframe; any other exception ends the tick, with
     `reached` timeframes attempted.
     */
    method RunOnceForTicker(ticker: string, now: Clock, scans: Timeframe -> Scan)
      returns (produced: nat, raised: bool, ghost reached: nat)
      requires Valid()
      modifies this
      ensures Valid()
      ensures var as_ := AttemptsOf(ticker, now, DueTimeframes(now), scans);
        && reached <= |as_| && (!raised ==> reached == |as_|)
        && log == old(log) + as_[..reached]
      ensures produced == Queued(batches) - old(Queued(batches))
    {
      var due := DueTimeframes(now);
      ghost var as_ := AttemptsOf(ticker, now, due, scans);
      produced, raised, reached := 0, false, 0;
      for i := 0 to |due|
        invariant reached == i && !raised && Valid()
        invariant log == old(log) + as_[..i]
        invariant produced == Queued(batches) - old(Queued(batches))
      {
        assert old(log) + as_[..i] + [as_[i]] == old(log) + as_[..i + 1];
        reached := i + 1;
        var n;
        n, raised := AttemptTimeframe(ticker, due[i], now, scans(due[i]));
        produced := produced + n;
        if raised { return; }
      }
    }

    /** One timeframe of a tick: skip a remembered slot, scan, queue the batch, remember the slot. */
    method AttemptTimeframe(ticker: string, timeframe: Timeframe, now: Clock, scan: Scan)
      returns (produced: nat, raised: bool)
      requires Valid()
      modifies this
      ensures Valid() && log == old(log) + [Attempt(Key(ticker, timeframe), now, scan)]
      ensures produced == Queued(batches) - old(Queued(batches)) && (raised ==> scan == OtherFailure)
      ensures produced == if batches != old(batches) && scan.Scanned? then scan.signals else 0
    {
      var slot := SlotKey(now, timeframe);
      var key := Key(ticker, timeframe);
      RunPrefix(log, [Attempt(key, now, scan)], |log|);
      log := log + [Attempt(key, now, scan)];
      produced, raised := 0, false;
      if key in processed && processed[key] == slot { return; }
      match scan
      case Scanned(n) =>
        assert (batches + [Batch(key, slot, n)])[..|batches|] == batches;
        batches := batches + [Batch(key, slot, n)];
        produced := n;
        processed := processed[key := slot];
      case StorageFailed =>
      case OtherFailure => raised := true;
    }
  }

  /** Signals put on the queue by a list of batches. */
  function Queued(bs: seq<Batch>): nat {
    if bs == [] then 0 else Queued(bs[..|bs| - 1]) + bs[|bs| - 1].signals
  }
}
