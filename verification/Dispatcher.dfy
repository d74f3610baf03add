/**
 The rate-limited priority dispatcher of app/core/rate_limited_client.py as a protocol of submit, dequeue,
 start and finish steps. `submit` suspends nowhere before its job is queued (the sequence lock is never
 held across a suspension and the queue is unbounded), so it is one step.
 */
module Dispatcher {
  import opened Prelude

  datatype Job = Job(isOrder: bool, seqNo: nat)

  /** How a job's function ends. A cancellation is not an Exception: it kills the worker. */
  datatype Outcome = Succeeded | Raised | Cancelled

  datatype Worker = Absent | Idle | Waiting(job: Job, wake: real) | Running(job: Job)

  datatype Start = Start(job: Job, at: real)

  datatype Future = Pending | Resolved(outcome: Outcome) | Abandoned

  datatype State = State(
    now: real,
    lastTs: real,
    queue: set<Job>,
    worker: Worker,
    submitted: seq<Job>,       // job number k was submitted k-th
    futures: seq<Future>,      // the future of each submitted job
    dequeued: seq<Job>,        // in dequeue order
    starts: seq<Start>,        // in start order
    outcomes: seq<Outcome>)    // of the starts that have finished

  datatype Event =
    | Submit(isOrder: bool)
    | Advance(elapsed: real)
    | Dequeue
    | Begin
    | Finish(outcome: Outcome)
    | Abandon(seqNo: nat)      // the caller stops waiting for its future

  function Init(): State {
    State(0.0, 0.0, {}, Absent, [], [], [], [], [])
  }

  /** Heap order: orders before data, then by sequence number. */
  predicate Precedes(a: Job, b: Job) {
    if a.isOrder != b.isOrder then a.isOrder else a.seqNo < b.seqNo
  }

  /** j is what the priority queue hands out next. */
  predicate IsNext(q: set<Job>, j: Job) {
    j in q && forall k :: k in q && k != j ==> Precedes(j, k)
  }

  function ResolveAt(fs: seq<Future>, i: nat, f: Future): seq<Future> {
    if i < |fs| && fs[i] == Pending then fs[i := f] else fs
  }

  /** One step of the protocol from s to s'. */
  ghost predicate Step(interval: real, s: State, e: Event, s': State) {
    match e
    case Submit(isOrder) =>
      var j := Job(isOrder, |s.submitted|);
      s' == s.(queue := s.queue + {j}, submitted := s.submitted + [j], futures := s.futures + [Pending],
               worker := if s.worker == Absent then Idle else s.worker)
    case Advance(d) => d >= 0.0 && s' == s.(now := s.now + d)
    case Dequeue =>
      s.worker == Idle && s'.worker.Waiting? && IsNext(s.queue, s'.worker.job) &&
      var j := s'.worker.job;
      var elapsed := s.now - s.lastTs;
      s' == s.(queue := s.queue - {j}, dequeued := s.dequeued + [j],
               worker := Waiting(j, if elapsed < interval then s.now + (interval - elapsed) else s.now))
    case Begin =>
      s.worker.Waiting? && s.now >= s.worker.wake &&
      s' == s.(worker := Running(s.worker.job), starts := s.starts + [Start(s.worker.job, s.now)])
    case Finish(o) =>
      s.worker.Running? &&
      s' == s.(lastTs := if o == Succeeded then s.now else s.lastTs,
               outcomes := s.outcomes + [o],
               futures := if o == Cancelled then s.futures else ResolveAt(s.futures, s.worker.job.seqNo, Resolved(o)),
               worker := if o == Cancelled then Absent else Idle)
    case Abandon(k) => s' == s.(futures := ResolveAt(s.futures, k, Abandoned))
  }

  /** ss is a run of the protocol under the events es. */
  ghost predicate IsRun(interval: real, ss: seq<State>, es: seq<Event>) {
    && |ss| == |es| + 1
    && forall i :: 0 <= i < |es| ==> Step(interval, ss[i], es[i], ss[i + 1])
  }

  /* ---- What every step keeps ---- */

  /** The job the worker holds, if any. */
  function Held(w: Worker): set<Job> {
    if w.Waiting? || w.Running? then {w.job} else {}
  }

  /** Every submitted job is either queued or has been dequeued, and never both or twice. */
  ghost predicate Accounted(s: State) {
    && |s.futures| == |s.submitted|
    && (forall k :: 0 <= k < |s.submitted| ==> s.submitted[k].seqNo == k)
    && (forall j :: j in s.queue ==> j in s.submitted && j !in s.dequeued)
    && (forall j :: j in s.dequeued ==> j in s.submitted)
    && (forall j :: j in s.submitted ==> j in s.queue || j in s.dequeued)
    && (forall a, b :: 0 <= a < b < |s.dequeued| ==> s.dequeued[a] != s.dequeued[b])
  }

  /** Jobs start in dequeue order; one at most is in flight; finished starts come first. */
  ghost predicate InFlight(s: State) {
    && |s.dequeued| == |s.starts| + (if s.worker.Waiting? then 1 else 0)
    && |s.starts| == |s.outcomes| + (if s.worker.Running? then 1 else 0)
    && (forall k :: 0 <= k < |s.starts| ==> s.starts[k].job == s.dequeued[k])
    && (s.worker.Waiting? || s.worker.Running? ==> s.dequeued != [] && s.worker.job == s.dequeued[|s.dequeued| - 1])
    && (s.worker == Absent && s.submitted != [] ==> s.outcomes != [] && s.outcomes[|s.outcomes| - 1] == Cancelled)
  }

  /** Within a class, jobs leave the queue in submission order. */
  ghost predicate FifoByClass(s: State) {
    && (forall a, b :: 0 <= a < b < |s.dequeued| && s.dequeued[a].isOrder == s.dequeued[b].isOrder
         ==> s.dequeued[a].seqNo < s.dequeued[b].seqNo)
    && (forall a, j :: 0 <= a < |s.dequeued| && j in s.queue && s.dequeued[a].isOrder == j.isOrder
         ==> s.dequeued[a].seqNo < j.seqNo)
  }

  ghost predicate Inv(s: State) {
    Accounted(s) && InFlight(s) && FifoByClass(s)
  }

  lemma InitInv()
    ensures Inv(Init())
  {
  }

  lemma SubmitKeepsInv(s: State, isOrder: bool, s': State)
    requires Inv(s) && Step(0.0, s, Submit(isOrder), s')
    ensures Inv(s')
  {
    var j := Job(isOrder, |s.submitted|);
    assert j !in s.submitted;
    assert s'.submitted[|s.submitted|] == j;
    assert forall k :: k in s.submitted ==> k in s'.submitted && k.seqNo < j.seqNo;
  }

  lemma DequeueKeepsInv(interval: real, s: State, s': State)
    requires Inv(s) && Step(interval, s, Dequeue, s')
    ensures Inv(s')
  {
    var j := s'.worker.job;
    assert s'.dequeued[|s.dequeued|] == j;
    assert forall k :: k in s.dequeued ==> k in s'.dequeued;
  }

  lemma BeginKeepsInv(interval: real, s: State, s': State)
    requires Inv(s) && Step(interval, s, Begin, s')
    ensures Inv(s')
  {
  }

  lemma FinishKeepsInv(interval: real, s: State, o: Outcome, s': State)
    requires Inv(s) && Step(interval, s, Finish(o), s')
    ensures Inv(s')
  {
  }

  lemma StepKeepsInv(interval: real, s: State, e: Event, s': State)
    requires Inv(s) && Step(interval, s, e, s')
    ensures Inv(s')
  {
    match e {
      case Submit(isOrder) => SubmitKeepsInv(s, isOrder, s');
      case Dequeue => DequeueKeepsInv(interval, s, s');
      case Begin => BeginKeepsInv(interval, s, s');
      case Finish(o) => FinishKeepsInv(interval, s, o, s');
      case _ =>
    }
  }

  /** The invariant holds in every state of every run, whatever the interleaving. */
  lemma {:induction false} RunKeepsInv(interval: real, ss: seq<State>, es: seq<Event>, n: nat)
    requires IsRun(interval, ss, es) && ss[0] == Init() && n < |ss|
    ensures Inv(ss[n])
  {
    if n == 0 {
      InitInv();
    } else {
      RunKeepsInv(interval, ss, es, n - 1);
      StepKeepsInv(interval, ss[n - 1], es[n - 1], ss[n]);
    }
  }

  /**
   When nothing is queued and the worker holds no job, every submitted job has started exactly once.
   */
  lemma QuiescentMeansAllStarted(s: State, j: Job)
    requires Inv(s) && s.queue == {} && Held(s.worker) == {} && j in s.submitted
    ensures exists k :: 0 <= k < |s.starts| && s.starts[k].job == j
    ensures forall a, b :: 0 <= a < b < |s.starts| ==> s.starts[a].job != s.starts[b].job
  {
    var k :| 0 <= k < |s.dequeued| && s.dequeued[k] == j;
    assert s.starts[k].job == j;
  }

  /* ---- Overtaking ---- */

  /** Orders queued ahead of order j. */
  ghost function Ahead(q: set<Job>, j: Job): set<Job> {
    set k | k in q && k.isOrder && k.seqNo < j.seqNo
  }

  /** Each step either leaves the orders ahead of j alone, takes one of them out, or takes j itself. */
  lemma StepAhead(interval: real, s: State, e: Event, s': State, j: Job)
    requires Inv(s) && Step(interval, s, e, s') && j in s.queue && j.isOrder
    ensures if j in s'.queue then |s'.dequeued| + |Ahead(s'.queue, j)| == |s.dequeued| + |Ahead(s.queue, j)|
            else Ahead(s.queue, j) == {} && s'.dequeued == s.dequeued + [j]
  {
    match e {
      case Submit(isOrder) =>
        assert j in s.submitted;
        assert Ahead(s'.queue, j) == Ahead(s.queue, j);
      case Dequeue =>
        var k := s'.worker.job;
        if k == j {
          assert forall a :: a in s.queue && a != j ==> Precedes(j, a);
          assert Ahead(s.queue, j) == {};
        } else {
          assert Precedes(k, j);
          assert Ahead(s'.queue, j) == Ahead(s.queue, j) - {k};
        }
      case _ =>
    }
  }

  /** Job j will be, or was, the one dequeued after `place` others. */
  ghost predicate Placed(s: State, j: Job, place: nat) {
    if j in s.queue then |s.dequeued| + |Ahead(s.queue, j)| == place
    else place < |s.dequeued| && s.dequeued[place] == j
  }

  lemma PlaceKept(interval: real, s: State, e: Event, s': State, j: Job, place: nat)
    requires Inv(s) && Inv(s') && Step(interval, s, e, s') && j.isOrder && Placed(s, j, place)
    ensures Placed(s', j, place)
  {
    if j in s.queue {
      StepAhead(interval, s, e, s', j);
    } else {
      assert s.dequeued <= s'.dequeued;
      assert s'.dequeued[place] == j && j in s'.dequeued;
    }
  }

  lemma RunKeepsPlace(interval: real, ss: seq<State>, es: seq<Event>, n: nat, j: Job, place: nat)
    requires IsRun(interval, ss, es) && ss[0] == Init() && 0 < n < |ss| && j.isOrder && Placed(ss[n - 1], j, place)
    ensures Placed(ss[n], j, place)
  {
    RunKeepsInv(interval, ss, es, n - 1);
    StepKeepsInv(interval, ss[n - 1], es[n - 1], ss[n]);
    PlaceKept(interval, ss[n - 1], es[n - 1], ss[n], j, place);
  }

  /**
   An order with q orders ahead of it is the (q+1)-th job to be dequeued from then on, however many data
   jobs wait and however many jobs of any kind are submitted later.
   */
  lemma {:induction false} OrderWaitsForOrdersOnly(interval: real, ss: seq<State>, es: seq<Event>, m: nat, n: nat, j: Job)
    requires IsRun(interval, ss, es) && ss[0] == Init() && m <= n < |ss|
    requires j in ss[m].queue && j.isOrder
    ensures Placed(ss[n], j, |ss[m].dequeued| + |Ahead(ss[m].queue, j)|)
  {
    if m < n {
      OrderWaitsForOrdersOnly(interval, ss, es, m, n - 1, j);
      RunKeepsPlace(interval, ss, es, n, j, |ss[m].dequeued| + |Ahead(ss[m].queue, j)|);
    }
  }

  /* ---- Rate ---- */

  /** How many of the starts a..b have succeeded. */
  function Successes(os: seq<Outcome>, a: nat, b: nat): nat
    requires b <= |os|
  {
    if b <= a then 0 else Successes(os, a, b - 1) + if os[b - 1] == Succeeded then 1 else 0
  }

  /** Each success pushes the last timestamp, and with it the next start, one interval further. */
  ghost predicate Spaced(interval: real, s: State) {
    && s.lastTs <= s.now
    && (s.worker.Waiting? ==> s.worker.wake >= s.lastTs + interval)
    && (forall a :: 0 <= a < |s.starts| ==> s.starts[a].at <= s.now)
    && (forall a :: 0 <= a < |s.outcomes| && Successes(s.outcomes, a, |s.outcomes|) > 0
         ==> a < |s.starts| && s.lastTs + interval >= s.starts[a].at + Times(Successes(s.outcomes, a, |s.outcomes|), interval))
    && (forall a, b :: 0 <= a <= b < |s.starts| && b <= |s.outcomes|
         ==> s.starts[b].at >= s.starts[a].at + Times(Successes(s.outcomes, a, b), interval))
  }

  lemma {:induction false} SuccessesPrefix(os: seq<Outcome>, o: Outcome, a: nat, b: nat)
    requires b <= |os|
    ensures Successes(os + [o], a, b) == Successes(os, a, b)
  {
    if a < b { SuccessesPrefix(os, o, a, b - 1); }
  }

  lemma BeginKeepsSpaced(interval: real, s: State, s': State)
    requires InFlight(s) && Spaced(interval, s) && Step(interval, s, Begin, s')
    ensures Spaced(interval, s')
  {
    var n := |s.starts|;
    forall a, b | 0 <= a <= b < |s'.starts| && b <= |s'.outcomes|
      ensures s'.starts[b].at >= s'.starts[a].at + Times(Successes(s'.outcomes, a, b), interval)
    {
      if b < n { assert s'.starts[b] == s.starts[b] && s'.starts[a] == s.starts[a]; }
    }
  }

  lemma FinishKeepsSpaced(interval: real, s: State, o: Outcome, s': State)
    requires InFlight(s) && Spaced(interval, s) && Step(interval, s, Finish(o), s')
    ensures Spaced(interval, s')
  {
    var os := s.outcomes;
    forall a: nat, b: nat | b <= |os| ensures Successes(s'.outcomes, a, b) == Successes(os, a, b) {
      SuccessesPrefix(os, o, a, b);
    }
  }

  lemma StepKeepsSpaced(interval: real, s: State, e: Event, s': State)
    requires InFlight(s) && Spaced(interval, s) && Step(interval, s, e, s')
    ensures Spaced(interval, s')
  {
    match e {
      case Begin => BeginKeepsSpaced(interval, s, s');
      case Finish(o) => FinishKeepsSpaced(interval, s, o, s');
      case _ =>
    }
  }

  lemma {:induction false} RunKeepsSpaced(interval: real, ss: seq<State>, es: seq<Event>, n: nat)
    requires IsRun(interval, ss, es) && ss[0] == Init() && n < |ss|
    ensures Spaced(interval, ss[n])
  {
    if n > 0 {
      RunKeepsSpaced(interval, ss, es, n - 1);
      RunKeepsInv(interval, ss, es, n - 1);
      StepKeepsSpaced(interval, ss[n - 1], es[n - 1], ss[n]);
    }
  }

  /**
   In every run, starts number a and b are at least one interval apart for each success among a..b. In
   particular k successful starts span at least (k-1) intervals.
   */
  lemma StartsAreSpaced(interval: real, ss: seq<State>, es: seq<Event>, n: nat, a: nat, b: nat)
    requires IsRun(interval, ss, es) && ss[0] == Init() && n < |ss|
    requires a <= b < |ss[n].starts|
    ensures b <= |ss[n].outcomes|
    ensures ss[n].starts[b].at - ss[n].starts[a].at >= Times(Successes(ss[n].outcomes, a, b), interval)
  {
    RunKeepsInv(interval, ss, es, n);
    RunKeepsSpaced(interval, ss, es, n);
  }

  lemma {:induction false} AllSucceeded(os: seq<Outcome>, a: nat, b: nat)
    requires a <= b <= |os|
    ensures Successes(os, a, b) <= b - a
    ensures Successes(os, a, b) == b - a <==> forall k :: a <= k < b ==> os[k] == Succeeded
  {
    if a < b { AllSucceeded(os, a, b - 1); }
  }

  /** Starts a..b span b - a intervals if every job from a up to, not including, b succeeded. */
  lemma SuccessfulStartsSpan(interval: real, ss: seq<State>, es: seq<Event>, n: nat, a: nat, b: nat)
    requires IsRun(interval, ss, es) && ss[0] == Init() && n < |ss| && a <= b < |ss[n].starts|
    requires forall k :: a <= k < b && k < |ss[n].outcomes| ==> ss[n].outcomes[k] == Succeeded
    ensures ss[n].starts[b].at - ss[n].starts[a].at >= Times(b - a, interval)
  {
    StartsAreSpaced(interval, ss, es, n, a, b);
    AllSucceeded(ss[n].outcomes, a, b);
  }

  /* ---- How long a job sleeps ---- */

  /** When the last successful job ended, read off the events; before the first one, the clock's zero. */
  function LastSuccess(ss: seq<State>, es: seq<Event>, n: nat): real
    requires n <= |es| < |ss|
  {
    if n == 0 then 0.0
    else if es[n - 1] == Finish(Succeeded) then ss[n - 1].now
    else LastSuccess(ss, es, n - 1)
  }

  lemma {:induction false} TimestampIsLastSuccess(interval: real, ss: seq<State>, es: seq<Event>, n: nat)
    requires IsRun(interval, ss, es) && ss[0] == Init() && n < |ss|
    ensures ss[n].lastTs == LastSuccess(ss, es, n)
  {
    if n > 0 {
      TimestampIsLastSuccess(interval, ss, es, n - 1);
      assert Step(interval, ss[n - 1], es[n - 1], ss[n]);
    }
  }

  /**
   In every run and for both classes, a dequeued job sleeps until one interval after the last success, and not at
   all if that has passed.
   */
  lemma SleepsExactly(interval: real, ss: seq<State>, es: seq<Event>, n: nat)
    requires IsRun(interval, ss, es) && ss[0] == Init() && n < |es| && es[n] == Dequeue
    ensures ss[n + 1].worker.Waiting?
    ensures ss[n + 1].worker.wake == Max(ss[n].now, LastSuccess(ss, es, n) + interval)
  {
    TimestampIsLastSuccess(interval, ss, es, n);
    assert Step(interval, ss[n], es[n], ss[n + 1]);
  }

  lemma {:induction false} QueueHasNext(q: set<Job>) returns (j: Job)
    requires q != {}
    ensures IsNext(q, j)
  {
    var i :| i in q;
    j := i;
    if q - {i} != {} {
      var k := QueueHasNext(q - {i});
      if Precedes(k, i) { j := k; }
    }
    forall x | x in q && x != j ensures Precedes(j, x) {
      assert x == i || x in q - {i};
    }
  }

  /**
   Work-conserving: whenever the worker is idle, a job is queued and an interval has passed since the last success,
   the next job can start at this very instant, with nothing but its dequeue in between.
   */
  lemma StartsAtOnce(interval: real, ss: seq<State>, es: seq<Event>) returns (s1: State, s2: State)
    requires IsRun(interval, ss, es) && ss[0] == Init()
    requires var s := ss[|es|]; s.worker == Idle && s.queue != {} && s.now >= LastSuccess(ss, es, |es|) + interval
    ensures IsRun(interval, ss + [s1, s2], es + [Dequeue, Begin])
    ensures |s2.starts| == |ss[|es|].starts| + 1 && s2.starts[|s2.starts| - 1].at == ss[|es|].now
    ensures IsNext(ss[|es|].queue, s2.starts[|s2.starts| - 1].job)
  {
    var s := ss[|es|];
    TimestampIsLastSuccess(interval, ss, es, |es|);
    var j := QueueHasNext(s.queue);
    s1 := s.(queue := s.queue - {j}, dequeued := s.dequeued + [j], worker := Waiting(j, s.now));
    s2 := s1.(worker := Running(j), starts := s.starts + [Start(j, s.now)]);
    assert Step(interval, s, Dequeue, s1) && Step(interval, s1, Begin, s2);
    var ts, fs := ss + [s1, s2], es + [Dequeue, Begin];
    forall i | 0 <= i < |fs| ensures Step(interval, ts[i], fs[i], ts[i + 1]) {
      if i < |es| { assert Step(interval, ss[i], es[i], ss[i + 1]); }
    }
  }

  /* ---- The bound is exact ---- */

  /** All jobs so far have run with the outcomes os, each start as early as the bound of StartsAreSpaced permits. */
  ghost predicate Tight(interval: real, s: State, os: seq<Outcome>) {
    var n := |os|;
    && s.queue == {} && (s.worker == Idle || s.worker == Absent)
    && s.outcomes == os && |s.starts| == |s.dequeued| == |s.submitted| == n
    && (if n > 0 && os[n - 1] == Succeeded then s.lastTs == s.now else n == 0 || s.now - s.lastTs >= interval)
    && (n > 0 ==> s.starts[n - 1].at == s.now)
    && forall b :: 0 <= b < n ==> s.starts[b].at == s.starts[0].at + Times(Successes(os, 0, b), interval)
  }

  /** When a job dequeued now wakes up. */
  function WakeTime(interval: real, s: State): real {
    if s.now - s.lastTs < interval then s.now + (interval - (s.now - s.lastTs)) else s.now
  }

  /** One job alone: submitted, dequeued, started the moment its sleep is over, and finished at once. */
  lemma SoloRound(interval: real, s: State, o: Outcome) returns (ts: seq<State>, fs: seq<Event>)
    requires s.queue == {} && (s.worker == Idle || s.worker == Absent)
    ensures |ts| == 6 && ts[0] == s && IsRun(interval, ts, fs)
    ensures var j, wake, s' := Job(true, |s.submitted|), WakeTime(interval, s), ts[5];
      && s'.queue == {} && (s'.worker == Idle || s'.worker == Absent) && s'.now == wake
      && s'.outcomes == s.outcomes + [o] && s'.starts == s.starts + [Start(j, wake)]
      && |s'.dequeued| == |s.dequeued| + 1 && |s'.submitted| == |s.submitted| + 1
      && s'.lastTs == if o == Succeeded then wake else s.lastTs
  {
    var j, wake := Job(true, |s.submitted|), WakeTime(interval, s);
    var s1 := s.(queue := {j}, submitted := s.submitted + [j], futures := s.futures + [Pending], worker := Idle);
    var s2 := s1.(queue := {}, dequeued := s.dequeued + [j], worker := Waiting(j, wake));
    var s3 := s2.(now := wake);
    var s4 := s3.(worker := Running(j), starts := s.starts + [Start(j, wake)]);
    var s5 := s4.(lastTs := if o == Succeeded then wake else s.lastTs, outcomes := s.outcomes + [o],
                  futures := if o == Cancelled then s4.futures else ResolveAt(s4.futures, j.seqNo, Resolved(o)),
                  worker := if o == Cancelled then Absent else Idle);
    assert s.queue + {j} == {j} && {j} - {j} == {} && s2.now + (wake - s.now) == wake;
    ts := [s, s1, s2, s3, s4, s5];
    fs := [Submit(true), Dequeue, Advance(wake - s.now), Begin, Finish(o)];
  }

  lemma TightAgain(interval: real, s: State, os: seq<Outcome>, o: Outcome, wake: real, j: Job, s': State)
    requires interval >= 0.0 && Tight(interval, s, os)
    requires wake == WakeTime(interval, s)
    requires s'.queue == {} && (s'.worker == Idle || s'.worker == Absent) && s'.now == wake
    requires s'.outcomes == os + [o] && s'.starts == s.starts + [Start(j, wake)]
    requires |s'.dequeued| == |s'.submitted| == |os| + 1
    requires s'.lastTs == if o == Succeeded then wake else s.lastTs
    ensures Tight(interval, s', os + [o])
  {
    var n := |os|;
    forall b: nat | b <= n ensures Successes(os + [o], 0, b) == Successes(os, 0, b) {
      SuccessesPrefix(os, o, 0, b);
    }
    assert n > 0 ==> wake == s.starts[0].at + Times(Successes(os, 0, n), interval);
    forall b | 0 <= b <= n
      ensures s'.starts[b].at == s'.starts[0].at + Times(Successes(os + [o], 0, b), interval)
    {
      if b < n { assert s'.starts[b] == s.starts[b] && s'.starts[0] == s.starts[0]; }
    }
  }

  lemma {:induction false} TightRun(interval: real, os: seq<Outcome>) returns (ss: seq<State>, es: seq<Event>)
    requires interval >= 0.0
    ensures IsRun(interval, ss, es) && ss[0] == Init() && Tight(interval, ss[|ss| - 1], os)
  {
    if os == [] {
      ss, es := [Init()], [];
    } else {
      var n := |os| - 1;
      assert os == os[..n] + [os[n]];
      var rs, ds := TightRun(interval, os[..n]);
      var s := rs[|rs| - 1];
      var ts, fs := SoloRound(interval, s, os[n]);
      TightAgain(interval, s, os[..n], os[n], WakeTime(interval, s), Job(true, |s.submitted|), ts[5]);
      ss, es := rs + ts[1..], ds + fs;
      RunsJoin(interval, rs, ds, ts, fs);
    }
  }

  lemma RunsJoin(interval: real, rs: seq<State>, ds: seq<Event>, ts: seq<State>, fs: seq<Event>)
    requires IsRun(interval, rs, ds) && IsRun(interval, ts, fs) && rs[|rs| - 1] == ts[0]
    ensures IsRun(interval, rs + ts[1..], ds + fs)
  {
    var ss, es := rs + ts[1..], ds + fs;
    forall i | 0 <= i < |es| ensures Step(interval, ss[i], es[i], ss[i + 1]) {
      if i < |ds| {
        assert Step(interval, rs[i], ds[i], rs[i + 1]);
      } else {
        assert Step(interval, ts[i - |ds|], fs[i - |ds|], ts[i - |ds| + 1]);
      }
    }
  }

  /** Whenever jobs have ended with the outcomes os, their starts span (k - 1) intervals. */
  ghost predicate SpanGuaranteed(interval: real, os: seq<Outcome>) {
    forall ss: seq<State>, es: seq<Event> :: IsRun(interval, ss, es) && ss[0] == Init() && ss[|ss| - 1].outcomes == os
      ==> SpansAll(interval, ss[|ss| - 1], |os|)
  }

  ghost predicate SpansAll(interval: real, s: State, k: nat) {
    0 < k <= |s.starts| ==> s.starts[k - 1].at - s.starts[0].at >= Times(k - 1, interval)
  }

  lemma {:induction false} TimesOrder(a: nat, b: nat, x: real)
    requires a <= b
    ensures x > 0.0 && a < b ==> Times(a, x) < Times(b, x)
    ensures x <= 0.0 ==> Times(a, x) >= Times(b, x)
  {
    if a < b { TimesOrder(a, b - 1, x); }
  }

  /** The rate limit is kept for k jobs exactly when every job before the last one succeeds (or there is no limit). */
  lemma SpanGuaranteedExactly(interval: real, os: seq<Outcome>)
    requires os != []
    ensures SpanGuaranteed(interval, os) <==> interval <= 0.0 || forall i :: 0 <= i < |os| - 1 ==> os[i] == Succeeded
  {
    var k := |os|;
    AllSucceeded(os, 0, k - 1);
    TimesOrder(Successes(os, 0, k - 1), k - 1, interval);
    if interval <= 0.0 || forall i :: 0 <= i < k - 1 ==> os[i] == Succeeded {
      forall ss: seq<State>, es: seq<Event> | IsRun(interval, ss, es) && ss[0] == Init() && ss[|ss| - 1].outcomes == os
        ensures SpansAll(interval, ss[|ss| - 1], k)
      {
        if k <= |ss[|ss| - 1].starts| { StartsAreSpaced(interval, ss, es, |ss| - 1, 0, k - 1); }
      }
    } else {
      var ss, es := TightRun(interval, os);
      assert !SpansAll(interval, ss[|ss| - 1], k);
    }
  }

  /** A failing job does not move the timestamp: the next one may start at the very same instant. */
  lemma FailureAllowsBackToBack() returns (ss: seq<State>, es: seq<Event>)
    ensures IsRun(1.0, ss, es) && |ss| == 9 && ss[0] == Init()
    ensures var s := ss[8]; |s.starts| == 2 && s.starts[0].at == s.starts[1].at && s.outcomes == [Raised]
  {
    var a, b := Job(false, 0), Job(false, 1);
    es := [Submit(false), Submit(false), Dequeue, Advance(1.0), Begin, Finish(Raised), Dequeue, Begin];
    var s0 := Init();
    var s1 := s0.(queue := {a}, submitted := [a], futures := [Pending], worker := Idle);
    var s2 := s1.(queue := {a, b}, submitted := [a, b], futures := [Pending, Pending]);
    var s3 := s2.(queue := {b}, dequeued := [a], worker := Waiting(a, 1.0));
    var s4 := s3.(now := 1.0);
    var s5 := s4.(worker := Running(a), starts := [Start(a, 1.0)]);
    var s6 := s5.(outcomes := [Raised], futures := [Resolved(Raised), Pending], worker := Idle);
    var s7 := s6.(queue := {}, dequeued := [a, b], worker := Waiting(b, 1.0));
    var s8 := s7.(worker := Running(b), starts := [Start(a, 1.0), Start(b, 1.0)]);
    assert Step(1.0, s1, Submit(false), s2);
    assert Step(1.0, s2, Dequeue, s3) by { assert IsNext(s2.queue, a); assert s3.queue == s2.queue - {a}; }
    assert Step(1.0, s6, Dequeue, s7) by { assert IsNext(s6.queue, b); assert s7.queue == s6.queue - {b}; }
    ss := [s0, s1, s2, s3, s4, s5, s6, s7, s8];
  }

  /* ---- Futures ---- */

  /** A future is resolved by its own job's outcome, before which it is not; a cancellation leaves it unresolved. */
  ghost predicate FuturesFollow(s: State)
    requires Accounted(s) && InFlight(s)
  {
    && (forall k :: 0 <= k < |s.outcomes| ==> Settles(s, s.starts[k].job, s.outcomes[k]))
    && (forall j :: j in s.queue + Held(s.worker) ==> j in s.submitted && !s.futures[j.seqNo].Resolved?)
  }

  ghost predicate Settles(s: State, j: Job, o: Outcome) {
    && j.seqNo < |s.futures|
    && var f := s.futures[j.seqNo];
       if o == Cancelled then !f.Resolved? else f == Resolved(o) || f == Abandoned
  }

  /** What one step does to one future. */
  lemma FutureStep(interval: real, s: State, e: Event, s': State, i: nat)
    requires Step(interval, s, e, s') && i < |s.futures|
    ensures i < |s'.futures|
    ensures s'.futures[i] == s.futures[i]
            || (s.futures[i] == Pending && s'.futures[i] == Abandoned)
            || (s.futures[i] == Pending && e.Finish? && i == s.worker.job.seqNo && s'.futures[i] == Resolved(e.outcome))
  {
  }

  lemma SettlesKept(interval: real, s: State, e: Event, s': State, k: nat)
    requires Accounted(s) && InFlight(s) && Step(interval, s, e, s')
    requires k < |s.outcomes| && Settles(s, s.starts[k].job, s.outcomes[k])
    ensures Settles(s', s.starts[k].job, s.outcomes[k])
  {
    var j := s.starts[k].job;
    FutureStep(interval, s, e, s', j.seqNo);
    if e.Finish? {
      var last := |s.dequeued| - 1;
      assert s.dequeued[k] != s.dequeued[last];
      assert s.dequeued[k] in s.submitted && s.dequeued[last] in s.submitted;
    }
  }

  lemma FinishSettles(interval: real, s: State, o: Outcome, s': State)
    requires Inv(s) && FuturesFollow(s) && Step(interval, s, Finish(o), s')
    ensures s'.outcomes == s.outcomes + [o] && Settles(s', s.worker.job, o)
  {
    assert s.worker.job in s.queue + Held(s.worker);
  }

  lemma UnsettledKept(interval: real, s: State, e: Event, s': State, j: Job)
    requires Inv(s) && FuturesFollow(s) && Inv(s') && Step(interval, s, e, s')
    requires j in s'.queue + Held(s'.worker)
    ensures j in s'.submitted && !s'.futures[j.seqNo].Resolved?
  {
    if e.Submit? && j.seqNo == |s.submitted| {
      assert s'.submitted[j.seqNo] == j;
    } else {
      assert j in s.queue + Held(s.worker);
      FutureStep(interval, s, e, s', j.seqNo);
      if e.Finish? {
        assert j in s.queue && s.dequeued[|s.dequeued| - 1] in s.submitted;
      }
    }
  }

  lemma OutcomesSettle(interval: real, s: State, e: Event, s': State)
    requires Inv(s) && FuturesFollow(s) && Inv(s') && Step(interval, s, e, s')
    ensures forall k :: 0 <= k < |s'.outcomes| ==> Settles(s', s'.starts[k].job, s'.outcomes[k])
  {
    if e.Finish? { FinishSettles(interval, s, e.outcome, s'); }
    forall k | 0 <= k < |s'.outcomes| ensures Settles(s', s'.starts[k].job, s'.outcomes[k]) {
      if k < |s.outcomes| {
        SettlesKept(interval, s, e, s', k);
        assert s'.starts[k] == s.starts[k] && s'.outcomes[k] == s.outcomes[k];
      }
    }
  }

  lemma StepKeepsFutures(interval: real, s: State, e: Event, s': State)
    requires Inv(s) && FuturesFollow(s) && Step(interval, s, e, s')
    ensures Inv(s') && FuturesFollow(s')
  {
    StepKeepsInv(interval, s, e, s');
    OutcomesSettle(interval, s, e, s');
    forall j | j in s'.queue + Held(s'.worker) ensures j in s'.submitted && !s'.futures[j.seqNo].Resolved? {
      UnsettledKept(interval, s, e, s', j);
    }
  }

  /** In every run: a future is resolved by its own job's outcome only, and never before that job has run. */
  lemma {:induction false} RunKeepsFutures(interval: real, ss: seq<State>, es: seq<Event>, n: nat)
    requires IsRun(interval, ss, es) && ss[0] == Init() && n < |ss|
    ensures Inv(ss[n]) && FuturesFollow(ss[n])
  {
    if n > 0 {
      RunKeepsFutures(interval, ss, es, n - 1);
      StepKeepsFutures(interval, ss[n - 1], es[n - 1], ss[n]);
    }
  }

  /** A future that is settled never changes again. */
  lemma {:induction false} SettledStays(interval: real, ss: seq<State>, es: seq<Event>, m: nat, n: nat, k: nat)
    requires IsRun(interval, ss, es) && m <= n < |ss| && k < |ss[m].futures| && ss[m].futures[k] != Pending
    ensures k < |ss[n].futures| && ss[n].futures[k] == ss[m].futures[k]
  {
    if m < n {
      SettledStays(interval, ss, es, m, n - 1, k);
      assert Step(interval, ss[n - 1], es[n - 1], ss[n]);
    }
  }

  /** A cancellation ends the worker and leaves the future of the job it was running pending. */
  lemma CancellationLeavesPending() returns (ss: seq<State>, es: seq<Event>)
    ensures IsRun(0.0, ss, es) && |ss| == 5 && ss[0] == Init()
    ensures var s := ss[4]; s.outcomes == [Cancelled] && s.futures == [Pending] && s.worker == Absent && s.queue == {}
  {
    var j := Job(false, 0);
    es := [Submit(false), Dequeue, Begin, Finish(Cancelled)];
    var s0 := Init();
    var s1 := s0.(queue := {j}, submitted := [j], futures := [Pending], worker := Idle);
    var s2 := s1.(queue := {}, dequeued := [j], worker := Waiting(j, 0.0));
    var s3 := s2.(worker := Running(j), starts := [Start(j, 0.0)]);
    var s4 := s3.(outcomes := [Cancelled], worker := Absent);
    assert Step(0.0, s0, Submit(false), s1) by { assert s0.queue + {j} == {j}; }
    assert Step(0.0, s1, Dequeue, s2) by { assert IsNext(s1.queue, j) && {j} - {j} == {}; }
    ss := [s0, s1, s2, s3, s4];
  }

  /* ---- The client object ---- */

  /** A run from the initial state to s. */
  ghost predicate RunTo(interval: real, ss: seq<State>, es: seq<Event>, s: State) {
    IsRun(interval, ss, es) && ss[0] == Init() && ss[|ss| - 1] == s
  }

  lemma RunNext(interval: real, ss: seq<State>, es: seq<Event>, s: State, e: Event, s': State)
    requires RunTo(interval, ss, es, s) && Step(interval, s, e, s')
    ensures RunTo(interval, ss + [s'], es + [e], s')
  {
    var ts, fs := ss + [s'], es + [e];
    forall i | 0 <= i < |fs| ensures Step(interval, ts[i], fs[i], ts[i + 1]) {
      if i < |es| { assert Step(interval, ss[i], es[i], ss[i + 1]); }
    }
  }

  class RateLimitedClient {
    const minInterval: real
    var lastTs: real
    var queue: set<Job>
    var nextSeq: nat
    var futures: seq<Future>
    var worker: Worker
    ghost var now: real
    ghost var submitted: seq<Job>
    ghost var dequeued: seq<Job>
    ghost var starts: seq<Start>
    ghost var outcomes: seq<Outcome>
    /** The whole run so far: states and events. */
    ghost var states: seq<State>
    ghost var events: seq<Event>

    /** The client as a state of the protocol. */
    ghost function View(): State
      reads this
    {
      State(now, lastTs, queue, worker, submitted, futures, dequeued, starts, outcomes)
    }

    /** The client is where a run of the protocol has taken it, so the theorems about runs hold of it. */
    ghost predicate Valid()
      reads this
    {
      && RunTo(minInterval, states, events, View())
      && nextSeq == |submitted|
    }

    /** So starts are spaced by one interval for each success between them. */
    lemma StartsSpaced(a: nat, b: nat)
      requires Valid() && a <= b < |starts|
      ensures b <= |outcomes| && starts[b].at - starts[a].at >= Times(Successes(outcomes, a, b), minInterval)
    {
      StartsAreSpaced(minInterval, states, events, |states| - 1, a, b);
    }

    /** Writes the step that has just been made into the run. */
    ghost method Record(before: State, e: Event)
      requires RunTo(minInterval, states, events, before) && Step(minInterval, before, e, View()) && nextSeq == |submitted|
      modifies this`states, this`events
      ensures Valid() && events == old(events) + [e] && View() == old(View())
    {
      RunNext(minInterval, states, events, before, e, View());
      states, events := states + [View()], events + [e];
    }

    constructor (interval: real)
      ensures Valid() && View() == Init() && minInterval == interval && events == []
    {
      minInterval := interval;
      lastTs, queue, nextSeq, futures, worker := 0.0, {}, 0, [], Absent;
      now, submitted, dequeued, starts, outcomes := 0.0, [], [], [], [];
      states, events := [Init()], [];
    }

    /** Queues a job and makes sure a worker exists. */
    method Submit(isOrder: bool) returns (j: Job)
      requires Valid()
      modifies this
      ensures Valid() && Step(minInterval, old(View()), Event.Submit(isOrder), View()) && events == old(events) + [Event.Submit(isOrder)]
      ensures j == Job(isOrder, old(nextSeq)) && j in queue
    {
      ghost var before := View();
      j := Job(isOrder, nextSeq);
      nextSeq := nextSeq + 1;
      queue := queue + {j};
      futures := futures + [Pending];
      submitted := submitted + [j];
      if worker == Absent { worker := Idle; }
      Record(before, Event.Submit(isOrder));
    }

    /** A caller stops waiting for the future of job k. */
    method GiveUp(k: nat)
      requires Valid()
      modifies this
      ensures Valid() && Step(minInterval, old(View()), Abandon(k), View()) && events == old(events) + [Abandon(k)]
    {
      ghost var before := View();
      futures := ResolveAt(futures, k, Abandoned);
      Record(before, Abandon(k));
    }

    /** The clock, read as `time`, only moves forward. */
    ghost method Tick(time: real)
      requires Valid() && time >= now
      modifies this`now, this`states, this`events
      ensures Valid() && now == time && Step(minInterval, old(View()), Advance(time - old(now)), View())
    {
      ghost var before := View();
      now := time;
      Record(before, Advance(time - before.now));
    }

    /** The worker takes the next job and works out how long to sleep. */
    method WorkerGet(time: real)
      requires Valid() && worker == Idle && queue != {} && time == now
      modifies this
      ensures Valid() && Step(minInterval, old(View()), Dequeue, View()) && events == old(events) + [Dequeue]
      ensures worker.Waiting? && worker.wake == Max(time, old(LastSuccess(states, events, |events|)) + minInterval)
    {
      ghost var before := View();
      TimestampIsLastSuccess(minInterval, states, events, |events|);
      ghost var w := QueueHasNext(queue);
      var j :| j in queue && IsNext(queue, j);
      queue := queue - {j};
      dequeued := dequeued + [j];
      var elapsed := time - lastTs;
      worker := Waiting(j, if elapsed < minInterval then time + (minInterval - elapsed) else time);
      Record(before, Dequeue);
    }

    /** After its sleep the worker starts the job. */
    method WorkerBegin(time: real)
      requires Valid() && worker.Waiting? && time == now && time >= worker.wake
      modifies this
      ensures Valid() && Step(minInterval, old(View()), Begin, View()) && events == old(events) + [Begin]
    {
      ghost var before := View();
      starts := starts + [Start(worker.job, time)];
      worker := Running(worker.job);
      Record(before, Begin);
    }

    /** The job's function ended: success moves the timestamp, an exception does not, a cancellation ends the worker. */
    method WorkerFinish(time: real, o: Outcome)
      requires Valid() && worker.Running? && time == now
      modifies this
      ensures Valid() && Step(minInterval, old(View()), Finish(o), View()) && events == old(events) + [Finish(o)]
    {
      ghost var before := View();
      if o == Succeeded { lastTs := time; }
      if o == Cancelled {
        worker := Absent;
      } else {
        futures := ResolveAt(futures, worker.job.seqNo, Resolved(o));
        worker := Idle;
      }
      outcomes := outcomes + [o];
      Record(before, Finish(o));
    }
  }
}
