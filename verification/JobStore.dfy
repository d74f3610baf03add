/** The table of backtest jobs: several jobs run interleaved, the oldest are evicted (app/services/backtest_jobs.py). */
module JobStore {
  import opened Prelude
  import opened Domain
  import opened BacktestRun
  import opened JobReport
  import RuntimeSafety

  datatype Status = Queued | Running | Completed | Failed

  datatype Job = Job(id: nat, createdAt: int, status: Status, progress: int, result: Option<Report>)

  /** The critical sections of the service; every other await lies between two of them. */
  datatype Event =
    | Start(id: nat, at: int)
    | Begin(id: nat)
    | Progress(id: nat, percent: int)
    | Complete(id: nat, report: Report)
    | Fail(id: nat)

  /** Which job was started, and when. */
  datatype Birth = Birth(id: nat, at: int)

  function BirthOf(job: Job): Birth { Birth(job.id, job.createdAt) }

  function Births(jobs: seq<Job>): seq<Birth> { seq(|jobs|, i requires 0 <= i < |jobs| => BirthOf(jobs[i])) }

  /** The first of the jobs with the least creation time. */
  function Oldest(jobs: seq<Job>): (i: nat)
    requires jobs != []
    ensures i < |jobs| && forall j :: 0 <= j < |jobs| ==> jobs[i].createdAt <= jobs[j].createdAt
    ensures forall j :: 0 <= j < i ==> jobs[i].createdAt < jobs[j].createdAt
  {
    if |jobs| == 1 then 0
    else
      var i := Oldest(jobs[..|jobs| - 1]);
      if jobs[|jobs| - 1].createdAt < jobs[i].createdAt then |jobs| - 1 else i
  }

  /** Evicts the oldest jobs until at most max are left. */
  function Trimmed(jobs: seq<Job>, max: int): seq<Job>
    decreases |jobs|
  {
    if |jobs| <= max || jobs == [] then jobs
    else
      var i := Oldest(jobs);
      Trimmed(jobs[..i] + jobs[i + 1..], max)
  }

  function Updated(job: Job, e: Event): Job {
    match e
    case Start(_, _) => job
    case Begin(_) => job.(status := Running)
    case Progress(_, percent) => job.(progress := if percent < 0 then 0 else if percent > 100 then 100 else percent)
    case Complete(_, report) => job.(status := Completed, progress := 100, result := Some(report))
    case Fail(_) => job.(status := Failed)
  }

  /** Every job with the event's id takes the update; a job that was evicted has none. */
  function Patched(jobs: seq<Job>, e: Event): (now: seq<Job>)
    ensures Births(now) == Births(jobs)
  {
    seq(|jobs|, i requires 0 <= i < |jobs| => if jobs[i].id == e.id then Updated(jobs[i], e) else jobs[i])
  }

  function Fresh(id: nat, at: int): Job {
    Job(id, at, Queued, 0, None)
  }

  function Step(jobs: seq<Job>, e: Event, max: int): seq<Job> {
    if e.Start? then Trimmed(jobs + [Fresh(e.id, e.at)], max) else Patched(jobs, e)
  }

  /** The table after the events es. */
  function Run(es: seq<Event>, max: int): seq<Job> {
    if es == [] then [] else Step(Run(es[..|es| - 1], max), es[|es| - 1], max)
  }

  function Started(es: seq<Event>): seq<Birth> {
    if es == [] then []
    else
      var e := es[|es| - 1];
      Started(es[..|es| - 1]) + if e.Start? then [Birth(e.id, e.at)] else []
  }

  /** Creation times never decrease. */
  ghost predicate ByAge(bs: seq<Birth>) {
    forall i, j :: 0 <= i < j < |bs| ==> bs[i].at <= bs[j].at
  }

  // ---- eviction ----

  /** One row over the limit: trimming takes out the oldest one. */
  lemma TrimOne(jobs: seq<Job>, i: nat)
    requires jobs != [] && i == Oldest(jobs)
    ensures Trimmed(jobs, |jobs| - 1) == jobs[..i] + jobs[i + 1..]
  {
    assert |jobs[..i] + jobs[i + 1..]| == |jobs| - 1;
  }

  /** The first row is the oldest one. */
  ghost predicate FirstIsOldest(bs: seq<Birth>) {
    bs != [] && forall j :: 0 < j < |bs| ==> bs[0].at <= bs[j].at
  }

  /** Trimming one row too many takes out the first one exactly when it is the oldest. */
  lemma TrimTakesFirst(grown: seq<Job>)
    requires grown != []
    ensures Births(Trimmed(grown, |grown| - 1)) == Births(grown)[1..] <==> FirstIsOldest(Births(grown))
  {
    var i := Oldest(grown);
    TrimOne(grown, i);
    if i == 0 {
      assert grown[..0] + grown[1..] == grown[1..];
      assert Births(grown[1..]) == Births(grown)[1..];
      assert forall j :: 0 <= j < |grown| ==> Births(grown)[j].at == grown[j].createdAt;
    } else {
      LaterGoes(grown, i);
    }
  }

  lemma LaterGoes(grown: seq<Job>, i: nat)
    requires grown != [] && i == Oldest(grown) > 0
    ensures Births(grown[..i] + grown[i + 1..]) != Births(grown)[1..] && !FirstIsOldest(Births(grown))
  {
    var kept := grown[..i] + grown[i + 1..];
    assert Births(kept)[i - 1].at == grown[i - 1].createdAt;
    assert Births(grown)[1..][i - 1].at == grown[i].createdAt;
    assert Births(grown)[0].at == grown[0].createdAt && Births(grown)[i].at == grown[i].createdAt;
  }

  function Recent(bs: seq<Birth>, max: nat): seq<Birth> {
    RuntimeSafety.Last(bs, max)
  }

  /** Birth i is no younger than any of the max births after it. */
  ghost predicate OldestOf(bs: seq<Birth>, i: nat, max: nat) {
    i + max < |bs| && forall j :: i < j <= i + max ==> bs[i].at <= bs[j].at
  }

  /** That holds of every birth that has max births after it. */
  ghost predicate EvictsInOrder(bs: seq<Birth>, max: nat) {
    forall i: nat :: i + max < |bs| ==> OldestOf(bs, i, max)
  }

  /** One more start: the table is the last max births again exactly when the birth that falls out is the oldest. */
  lemma StartKeepsRecent(was: seq<Job>, bs: seq<Birth>, e: Event, max: nat)
    requires e.Start? && Births(was) == Recent(bs, max)
    ensures var b := Birth(e.id, e.at);
            Births(Step(was, e, max)) == Recent(bs + [b], max)
            <==> |bs| < max || OldestOf(bs + [b], |bs| - max, max)
  {
    var b, grown := Birth(e.id, e.at), was + [Fresh(e.id, e.at)];
    assert Births(grown) == Births(was) + [b];
    if |bs| < max {
      assert Births(grown) == bs + [b];
    } else {
      assert |was| == |Births(was)| == max;
      assert Births(grown) == (bs + [b])[|bs| - max..];
      assert Recent(bs + [b], max) == Births(grown)[1..];
      TrimTakesFirst(grown);
      FirstOfWindow(bs + [b], |bs| - max, max);
    }
  }

  lemma FirstOfWindow(bs: seq<Birth>, i: nat, max: nat)
    requires i + max + 1 == |bs|
    ensures FirstIsOldest(bs[i..]) <==> OldestOf(bs, i, max)
  {
    var w := bs[i..];
    assert forall j :: i < j <= i + max ==> w[j - i] == bs[j];
    assert forall j :: 0 < j < |w| ==> w[j] == bs[i + j];
  }

  lemma EvictsOneMore(bs: seq<Birth>, b: Birth, max: nat)
    ensures EvictsInOrder(bs + [b], max) <==> EvictsInOrder(bs, max) && (|bs| < max || OldestOf(bs + [b], |bs| - max, max))
  {
    var bs' := bs + [b];
    assert forall j :: 0 <= j < |bs| ==> bs'[j] == bs[j];
    forall i: nat | i + max < |bs| ensures OldestOf(bs', i, max) <==> OldestOf(bs, i, max) {
      assert forall j :: i < j <= i + max ==> bs'[j] == bs[j];
    }
  }

  /** After each of the first n events the table holds exactly the jobs started last, in order. */
  ghost predicate AlwaysRecent(es: seq<Event>, max: nat, n: nat)
    requires n <= |es|
  {
    forall m :: 0 <= m <= n ==> IsRecent(es[..m], max)
  }

  ghost predicate IsRecent(es: seq<Event>, max: nat) {
    Births(Run(es, max)) == Recent(Started(es), max)
  }

  lemma RecentStep(es: seq<Event>, max: nat)
    requires es != [] && IsRecent(es[..|es| - 1], max)
    ensures IsRecent(es, max) && EvictsInOrder(Started(es[..|es| - 1]), max)
            <==> EvictsInOrder(Started(es), max)
  {
    var front, e := es[..|es| - 1], es[|es| - 1];
    var bs := Started(front);
    if e.Start? {
      StartKeepsRecent(Run(front, max), bs, e, max);
      EvictsOneMore(bs, Birth(e.id, e.at), max);
    } else {
      assert bs + [] == bs;
    }
  }

  /**
   In any interleaving, the table holds after every event exactly the last max jobs started, in order, if and only
   if every job that has max jobs started after it is no younger than any of those.
   */
  lemma {:induction false} KeepsLastExactly(es: seq<Event>, max: nat)
    ensures AlwaysRecent(es, max, |es|) <==> EvictsInOrder(Started(es), max)
  {
    if es == [] {
      assert es[..0] == es;
    } else {
      var front := es[..|es| - 1];
      KeepsLastExactly(front, max);
      assert es[..|es|] == es;
      assert forall m :: 0 <= m <= |front| ==> es[..m] == front[..m];
      assert AlwaysRecent(es, max, |es|) <==> AlwaysRecent(front, max, |front|) && IsRecent(es, max);
      if AlwaysRecent(front, max, |front|) {
        assert front[..|front|] == front;
        assert IsRecent(front, max);
        RecentStep(es, max);
      } else {
        EvictsPrefix(es, max);
      }
    }
  }

  lemma EvictsPrefix(es: seq<Event>, max: nat)
    requires es != []
    ensures EvictsInOrder(Started(es), max) ==> EvictsInOrder(Started(es[..|es| - 1]), max)
  {
    var front, e := es[..|es| - 1], es[|es| - 1];
    if e.Start? { EvictsOneMore(Started(front), Birth(e.id, e.at), max); } else { assert Started(front) + [] == Started(front); }
  }

  /** Creation times that never decrease are enough. */
  lemma KeepsLastStarted(es: seq<Event>, max: nat)
    requires ByAge(Started(es))
    ensures Births(Run(es, max)) == Recent(Started(es), max)
  {
    var bs := Started(es);
    assert EvictsInOrder(bs, max);
    KeepsLastExactly(es, max);
    assert es[..|es|] == es;
    assert IsRecent(es[..|es|], max);
  }

  /** The table lists a job with this id. */
  predicate Lists(jobs: seq<Job>, id: nat) {
    exists i :: 0 <= i < |jobs| && jobs[i].id == id
  }

  /** A newly started job is kept exactly when there is room or some earlier job is not younger by the clock. */
  lemma NewJobKept(jobs: seq<Job>, id: nat, at: int, max: int)
    requires |jobs| <= max && !Lists(jobs, id)
    ensures Lists(Trimmed(jobs + [Fresh(id, at)], max), id)
            <==> |jobs| < max || exists i :: 0 <= i < |jobs| && jobs[i].createdAt <= at
  {
    var grown := jobs + [Fresh(id, at)];
    if |jobs| < max {
      assert grown[|jobs|].id == id;
    } else {
      var i := Oldest(grown);
      TrimOne(grown, i);
      if i < |jobs| {
        OlderGoes(jobs, grown, i);
      } else {
        NewestGoes(jobs, grown);
      }
    }
  }

  /** It happens: the clock steps back by one, and the table of one job keeps the old job and drops the new one. */
  lemma BackwardClockDropsNewJob()
    ensures Run([Start(1, 5), Start(2, 4)], 1) == [Fresh(1, 5)]
  {
    var es := [Start(1, 5), Start(2, 4)];
    assert es[..1] == [Start(1, 5)] && [Start(1, 5)][..0] == [];
    assert Run([Start(1, 5)][..0], 1) == [];
    assert [] + [Fresh(1, 5)] == [Fresh(1, 5)];
    assert Run([Start(1, 5)], 1) == [Fresh(1, 5)];
    var grown := [Fresh(1, 5)] + [Fresh(2, 4)];
    TrimOne(grown, 1);
    assert grown[..1] + grown[2..] == [Fresh(1, 5)];
  }

  lemma OlderGoes(jobs: seq<Job>, grown: seq<Job>, i: nat)
    requires |grown| == |jobs| + 1 && grown == jobs + [grown[|jobs|]] && i < |jobs| && i == Oldest(grown)
    ensures Lists(grown[..i] + grown[i + 1..], grown[|jobs|].id)
    ensures jobs[i].createdAt <= grown[|jobs|].createdAt
  {
    var kept := grown[..i] + grown[i + 1..];
    assert kept[|kept| - 1] == grown[|jobs|];
  }

  lemma NewestGoes(jobs: seq<Job>, grown: seq<Job>)
    requires |grown| == |jobs| + 1 && grown == jobs + [grown[|jobs|]] && |jobs| == Oldest(grown)
    ensures grown[..|jobs|] + grown[|jobs| + 1..] == jobs
    ensures forall k :: 0 <= k < |jobs| ==> jobs[k].createdAt > grown[|jobs|].createdAt
  {
    forall k | 0 <= k < |jobs| ensures jobs[k].createdAt > grown[|jobs|].createdAt {
      assert grown[k].createdAt > grown[Oldest(grown)].createdAt;
    }
  }

  // ---- isolation ----

  function Find(jobs: seq<Job>, id: nat): Option<Job> {
    if jobs == [] then None else if jobs[0].id == id then Some(jobs[0]) else Find(jobs[1..], id)
  }

  /** The events that concern one job. */
  function Own(es: seq<Event>, id: nat): seq<Event> {
    if es == [] then []
    else Own(es[..|es| - 1], id) + if es[|es| - 1].id == id then [es[|es| - 1]] else []
  }

  lemma OwnSnoc(es: seq<Event>, e: Event, id: nat)
    ensures Run(Own(es + [e], id), 1)
            == if e.id == id then Step(Run(Own(es, id), 1), e, 1) else Run(Own(es, id), 1)
  {
    assert (es + [e])[..|es|] == es;
    var own := Own(es, id);
    if e.id == id { assert (own + [e])[..|own|] == own; } else { assert own + [] == own; }
  }

  lemma {:induction false} FindPatched(jobs: seq<Job>, e: Event, id: nat)
    ensures Find(Patched(jobs, e), id)
            == match Find(jobs, id)
               case None => None
               case Some(job) => Some(if e.id == id then Updated(job, e) else job)
  {
    if jobs != [] {
      FindPatched(jobs[1..], e, id);
      assert Patched(jobs, e)[1..] == Patched(jobs[1..], e);
    }
  }

  lemma {:induction false} FindAppend(xs: seq<Job>, ys: seq<Job>, id: nat)
    ensures Find(xs + ys, id) == if Find(xs, id).Some? then Find(xs, id) else Find(ys, id)
  {
    if xs == [] {
      assert xs + ys == ys;
    } else {
      FindAppend(xs[1..], ys, id);
      assert (xs + ys)[1..] == xs[1..] + ys;
    }
  }

  lemma {:induction false} FindSound(jobs: seq<Job>, id: nat)
    ensures Find(jobs, id).Some? <==> exists i :: 0 <= i < |jobs| && jobs[i].id == id
    ensures Find(jobs, id).Some? ==> Find(jobs, id).value.id == id && Find(jobs, id).value in jobs
  {
    if jobs != [] { FindSound(jobs[1..], id); }
    if Find(jobs, id).Some? && jobs[0].id != id {
      var i :| 0 <= i < |jobs[1..]| && jobs[1..][i].id == id;
      assert jobs[i + 1].id == id;
    }
    if i :| 0 <= i < |jobs| && jobs[i].id == id && jobs[0].id != id {
      assert jobs[1..][i - 1].id == id;
    }
  }

  ghost predicate Unique(jobs: seq<Job>) {
    forall i, j :: 0 <= i < j < |jobs| ==> jobs[i].id != jobs[j].id
  }

  /** Eviction removes whole rows and never changes one. */
  lemma {:induction false} TrimKeepsRows(jobs: seq<Job>, max: int, id: nat)
    requires Unique(jobs)
    ensures Unique(Trimmed(jobs, max))
    ensures Find(Trimmed(jobs, max), id).None? || Find(Trimmed(jobs, max), id) == Find(jobs, id)
    ensures forall job :: job in Trimmed(jobs, max) ==> job in jobs
    decreases |jobs|
  {
    if !(|jobs| <= max || jobs == []) {
      var i := Oldest(jobs);
      var xs, rest := jobs[..i], jobs[i + 1..];
      assert jobs == xs + ([jobs[i]] + rest);
      TrimKeepsRows(xs + rest, max, id);
      FindAppend(xs, rest, id);
      FindAppend(xs, [jobs[i]] + rest, id);
      FindAppend([jobs[i]], rest, id);
      FindSound(rest, id);
    }
  }

  ghost predicate FreshIds(es: seq<Event>) {
    forall i, j :: 0 <= i < j < |es| && es[i].Start? && es[j].Start? ==> es[i].id != es[j].id
  }

  lemma {:induction false} RowsWereStarted(es: seq<Event>, max: int)
    requires FreshIds(es)
    ensures Unique(Run(es, max))
    ensures forall job :: job in Run(es, max) ==> exists i :: 0 <= i < |es| && es[i].Start? && es[i].id == job.id
  {
    if es != [] {
      var front, e := es[..|es| - 1], es[|es| - 1];
      var was := Run(front, max);
      RowsWereStarted(front, max);
      if e.Start? {
        var grown := was + [Fresh(e.id, e.at)];
        forall k | 0 <= k < |was| ensures was[k].id != e.id {
          assert was[k] in was;
        }
        TrimKeepsRows(grown, max, e.id);
        assert es[|es| - 1].Start?;
        forall job | job in Run(es, max) ensures exists i :: 0 <= i < |es| && es[i].Start? && es[i].id == job.id {
          if job in was {
            var i :| 0 <= i < |front| && front[i].Start? && front[i].id == job.id;
            assert es[i] == front[i];
          } else {
            assert es[|es| - 1].id == job.id;
          }
        }
      } else {
        var now := Patched(was, e);
        forall job | job in now ensures exists i :: 0 <= i < |es| && es[i].Start? && es[i].id == job.id {
          var k :| 0 <= k < |now| && now[k] == job;
          assert Births(now)[k] == Births(was)[k];
          assert was[k] in was;
          var i :| 0 <= i < |front| && front[i].Start? && front[i].id == was[k].id;
          assert es[i] == front[i];
        }
        forall i, j | 0 <= i < j < |now| ensures now[i].id != now[j].id {
          assert Births(now)[i] == Births(was)[i] && Births(now)[j] == Births(was)[j];
        }
      }
    }
  }

  /** Concurrent jobs do not touch each other: a job still in the table is what its own events made of it. */
  lemma {:induction false} JobsAreIsolated(es: seq<Event>, max: int, id: nat)
    requires FreshIds(es)
    ensures Find(Run(es, max), id).Some? ==> Find(Run(es, max), id) == Find(Run(Own(es, id), 1), id)
  {
    if es != [] {
      var front, e := es[..|es| - 1], es[|es| - 1];
      assert es == front + [e];
      JobsAreIsolated(front, max, id);
      OwnSnoc(front, e, id);
      if e.Start? {
        StartIsolated(front, e, max, id);
      } else {
        FindPatched(Run(front, max), e, id);
        FindPatched(Run(Own(front, id), 1), e, id);
      }
    }
  }

  lemma StartIsolated(front: seq<Event>, e: Event, max: int, id: nat)
    requires e.Start? && FreshIds(front + [e])
    ensures var now := Find(Step(Run(front, max), e, max), id);
            now.Some? ==> now == if e.id == id then Find(Step(Run(Own(front, id), 1), e, 1), id)
                                 else Find(Run(front, max), id)
  {
    var was := Run(front, max);
    StartIsNew(front, e, max);
    TrimKeepsRows(was + [Fresh(e.id, e.at)], max, id);
    FindAppend(was, [Fresh(e.id, e.at)], id);
    if e.id == id {
      FindSound(was, id);
      OwnStartsNothing(front, id);
      assert [] + [Fresh(id, e.at)] == [Fresh(id, e.at)];
    }
  }

  /** A job that is being started has no row yet. */
  lemma StartIsNew(front: seq<Event>, e: Event, max: int)
    requires e.Start? && FreshIds(front + [e])
    ensures Unique(Run(front, max) + [Fresh(e.id, e.at)])
    ensures forall i :: 0 <= i < |front| && front[i].Start? ==> front[i].id != e.id
    ensures forall job :: job in Run(front, max) ==> job.id != e.id
  {
    var es, was := front + [e], Run(front, max);
    assert forall i :: 0 <= i < |front| ==> es[i] == front[i];
    assert es[|front|] == e;
    RowsWereStarted(front, max);
    forall k | 0 <= k < |was| ensures was[k].id != e.id {
      assert was[k] in was;
    }
  }

  /** Before a job is started its own events find no row. */
  lemma {:induction false} OwnStartsNothing(es: seq<Event>, id: nat)
    requires forall i :: 0 <= i < |es| && es[i].Start? ==> es[i].id != id
    ensures Run(Own(es, id), 1) == []
  {
    if es != [] {
      var front, e := es[..|es| - 1], es[|es| - 1];
      assert es == front + [e];
      OwnStartsNothing(front, id);
      OwnSnoc(front, e, id);
    }
  }

  // ---- one job ----

  /** The progress updates of a job over n signals. */
  function Ticks(id: nat, n: nat): seq<Event> {
    seq(n, i requires 0 <= i < n => Progress(id, (i + 1) * 100 / n))
  }

  /** What one job does after it was started. Without a report the parameters could not be parsed.
      An alert that raises after completion lands in the same handler as a failing backtest. */
  function Script(id: nat, n: nat, report: Option<Report>, alertRaises: bool): seq<Event> {
    [Begin(id)]
    + match report
      case None => [Fail(id)]
      case Some(r) => Ticks(id, n) + [Complete(id, r)] + if alertRaises then [Fail(id)] else []
  }

  function Folded(job: Job, es: seq<Event>): Job {
    if es == [] then job else Updated(Folded(job, es[..|es| - 1]), es[|es| - 1])
  }

  lemma {:induction false} TicksOnlyProgress(job: Job, id: nat, n: nat, k: nat)
    requires k <= n
    ensures Folded(job, Ticks(id, n)[..k])
            == job.(progress := if k == 0 then job.progress else k * 100 / n)
  {
    if k > 0 {
      assert Ticks(id, n)[..k][..k - 1] == Ticks(id, n)[..k - 1];
      TicksOnlyProgress(job, id, n, k - 1);
      PercentMono(k, k, n);
    }
  }

  lemma PercentMono(j: nat, k: nat, n: nat)
    requires j <= k <= n && n > 0
    ensures 0 <= j * 100 / n <= k * 100 / n <= 100
  {
    QuotientMono(j * 100, k * 100, n);
    WholeSteps(100, k * 100 / n, n);
  }

  lemma QuotientMono(a: nat, b: nat, n: nat)
    requires a <= b && n > 0
    ensures a / n <= b / n
  {
    WholeSteps(b / n, a / n, n);
  }

  lemma {:induction false} FoldAppend(job: Job, xs: seq<Event>, ys: seq<Event>)
    ensures Folded(job, xs + ys) == Folded(Folded(job, xs), ys)
  {
    if ys == [] {
      assert xs + ys == xs;
    } else {
      FoldAppend(job, xs, ys[..|ys| - 1]);
      assert (xs + ys)[..|xs + ys| - 1] == xs + ys[..|ys| - 1];
    }
  }

  lemma ScriptOutcome(job: Job, id: nat, n: nat, report: Option<Report>, alertRaises: bool)
    ensures var end := Folded(job, Script(id, n, report, alertRaises));
            && end.status == (if report.Some? && !alertRaises then Completed else Failed)
            && (report.Some? ==> end.result == report && end.progress == 100)
            && (report.None? ==> end.result == job.result && end.progress == job.progress)
  {
    FoldAppend(job, [], [Begin(id)]);
    var begun := Folded(job, [Begin(id)]);
    match report
    case None =>
      FoldAppend(job, [Begin(id)], [Fail(id)]);
    case Some(r) =>
      var ticks := Ticks(id, n);
      var last := [Complete(id, r)] + if alertRaises then [Fail(id)] else [];
      TicksOnlyProgress(begun, id, n, n);
      assert ticks[..n] == ticks;
      assert Script(id, n, report, alertRaises) == [Begin(id)] + (ticks + last);
      FoldAppend(job, [Begin(id)], ticks + last);
      FoldAppend(begun, ticks, last);
      var ticked := Folded(begun, ticks);
      if alertRaises { assert last[..1] == [Complete(id, r)]; }
  }

  /** Folding a job's own events over its own row is running them alone. */
  lemma {:induction false} AloneIsFold(id: nat, at: int, es: seq<Event>)
    requires forall i :: 0 <= i < |es| ==> es[i].id == id && !es[i].Start?
    ensures Run([Start(id, at)] + es, 1) == [Folded(Fresh(id, at), es)]
  {
    var all := [Start(id, at)] + es;
    if es == [] {
      assert all[..0] == [] && all[0] == Start(id, at);
      assert [] + [Fresh(id, at)] == [Fresh(id, at)];
      assert Run(all[..0], 1) == [];
    } else {
      assert all[..|all| - 1] == [Start(id, at)] + es[..|es| - 1];
      AloneIsFold(id, at, es[..|es| - 1]);
      FoldKeepsId(Fresh(id, at), es[..|es| - 1]);
    }
  }

  lemma {:induction false} FoldKeepsId(job: Job, es: seq<Event>)
    ensures Folded(job, es).id == job.id
  {
    if es != [] { FoldKeepsId(job, es[..|es| - 1]); }
  }

  /** In any interleaving with other jobs, a finished job that is still listed shows exactly its own report. It is
      listed as completed if and only if its parameters parsed and its completion alert did not raise. */
  lemma FinishedJobShowsItsReport(es: seq<Event>, max: int, id: nat, at: int, n: nat, report: Option<Report>,
                                  alertRaises: bool)
    requires FreshIds(es) && Find(Run(es, max), id).Some?
    requires Own(es, id) == [Start(id, at)] + Script(id, n, report, alertRaises)
    ensures var job := Find(Run(es, max), id).value;
            && (job.status == Completed <==> report.Some? && !alertRaises)
            && (job.status == Failed <==> report.None? || alertRaises)
            && job.result == report && job.createdAt == at
            && job.progress == if report.Some? then 100 else 0
  {
    JobsAreIsolated(es, max, id);
    AloneIsFold(id, at, Script(id, n, report, alertRaises));
    ScriptOutcome(Fresh(id, at), id, n, report, alertRaises);
    FoldKeepsBirth(Fresh(id, at), Script(id, n, report, alertRaises));
  }

  lemma {:induction false} FoldKeepsBirth(job: Job, es: seq<Event>)
    ensures BirthOf(Folded(job, es)) == BirthOf(job)
  {
    if es != [] { FoldKeepsBirth(job, es[..|es| - 1]); }
  }

  /** It happens: the backtest is done and its report stored, the alert raises, and the job is listed as failed. */
  lemma RaisingAlertFailsTheJob(r: Report) returns (es: seq<Event>)
    ensures es == [Start(7, 0)] + Script(7, 0, Some(r), true)
    ensures Run(es, 1) == [Job(7, 0, Failed, 100, Some(r))]
  {
    var script := Script(7, 0, Some(r), true);
    es := [Start(7, 0)] + script;
    AloneIsFold(7, 0, script);
    ScriptOutcome(Fresh(7, 0), 7, 0, Some(r), true);
    FoldKeepsBirth(Fresh(7, 0), script);
  }

  // ---- progress ----

  /** The progress shown after the first k events of a script. */
  function ProgressAfter(n: nat, k: nat, completes: bool): int {
    if !completes || k <= 1 then 0 else if k <= n + 1 then (k - 1) * 100 / n else 100
  }

  /** The status shown after the first k events of a script. */
  function StatusAfter(n: nat, k: nat, completes: bool): Status {
    if k == 0 then Queued
    else if !completes then (if k == 1 then Running else Failed)
    else if k <= n + 1 then Running
    else if k == n + 2 then Completed
    else Failed
  }

  lemma {:induction false} ScriptStatus(id: nat, at: int, n: nat, report: Option<Report>, alertRaises: bool, k: nat)
    requires k <= |Script(id, n, report, alertRaises)|
    ensures Folded(Fresh(id, at), Script(id, n, report, alertRaises)[..k]).status == StatusAfter(n, k, report.Some?)
  {
    var script := Script(id, n, report, alertRaises);
    if k > 0 {
      ScriptStatus(id, at, n, report, alertRaises, k - 1);
      assert script[..k][..k - 1] == script[..k - 1];
      if report.Some? && 1 < k <= n + 1 { assert script[k - 1] == Ticks(id, n)[k - 2]; }
    }
  }

  lemma ProgressAfterMono(n: nat, j: nat, k: nat, completes: bool)
    requires j <= k
    ensures 0 <= ProgressAfter(n, j, completes) <= ProgressAfter(n, k, completes) <= 100
  {
    if completes && 1 < k <= n + 1 { PercentMono(if j > 1 then j - 1 else 0, k - 1, n); }
    if completes && 1 < j <= n + 1 { PercentMono(j - 1, j - 1, n); }
  }

  lemma {:induction false} ScriptProgress(id: nat, at: int, n: nat, report: Option<Report>, alertRaises: bool, k: nat)
    requires k <= |Script(id, n, report, alertRaises)|
    ensures Folded(Fresh(id, at), Script(id, n, report, alertRaises)[..k]).progress == ProgressAfter(n, k, report.Some?)
  {
    var script := Script(id, n, report, alertRaises);
    if k > 0 {
      ScriptProgress(id, at, n, report, alertRaises, k - 1);
      assert script[..k][..k - 1] == script[..k - 1];
      if report.Some? && 1 < k <= n + 1 {
        assert script[k - 1] == Ticks(id, n)[k - 2];
        PercentMono(k - 1, k - 1, n);
      }
    }
  }

  lemma {:induction false} OwnPrefix(es: seq<Event>, id: nat, a: nat)
    requires a <= |es|
    ensures Own(es[..a], id) <= Own(es, id)
  {
    if a == |es| {
      assert es[..a] == es;
    } else {
      var front := es[..|es| - 1];
      OwnPrefix(front, id, a);
      assert front[..a] == es[..a];
    }
  }

  /** The job's own events are its start and its script, as far as it has got. */
  ghost predicate FollowsScript(es: seq<Event>, id: nat, at: int, n: nat, report: Option<Report>, alertRaises: bool) {
    FreshIds(es) && Own(es, id) <= [Start(id, at)] + Script(id, n, report, alertRaises)
  }

  /** How many of its own events a job has had among the first a. */
  function OwnCount(es: seq<Event>, id: nat, a: nat): nat
    requires a <= |es|
  {
    |Own(es[..a], id)|
  }

  lemma OwnGrows(es: seq<Event>, id: nat, a: nat, b: nat)
    requires a <= b <= |es|
    ensures OwnCount(es, id, a) <= OwnCount(es, id, b)
  {
    OwnPrefix(es[..b], id, a);
    assert es[..b][..a] == es[..a];
  }

  /** A job listed after the first a events shows the progress and status of the part of its script that has happened: queued until it begins,
      running until it completes or fails. */
  lemma ListedProgress(es: seq<Event>, max: int, id: nat, at: int, n: nat, report: Option<Report>, alertRaises: bool,
                       a: nat, row: Job)
    requires FollowsScript(es, id, at, n, report, alertRaises) && a <= |es| && Find(Run(es[..a], max), id) == Some(row)
    ensures OwnCount(es, id, a) > 0 && row.progress == ProgressAfter(n, OwnCount(es, id, a) - 1, report.Some?)
    ensures row.status == StatusAfter(n, OwnCount(es, id, a) - 1, report.Some?)
  {
    var own, script := Own(es[..a], id), Script(id, n, report, alertRaises);
    assert forall i :: 0 <= i < a ==> es[..a][i] == es[i];
    assert FreshIds(es[..a]);
    JobsAreIsolated(es[..a], max, id);
    OwnPrefix(es, id, a);
    if own != [] {
      var k := |own| - 1;
      assert own == [Start(id, at)] + script[..k];
      AloneIsFold(id, at, script[..k]);
      ScriptProgress(id, at, n, report, alertRaises, k);
      ScriptStatus(id, at, n, report, alertRaises, k);
    }
  }

  /** In any interleaving, the progress that a listed job shows never goes back and stays in 0..100. */
  lemma ProgressNeverGoesBack(es: seq<Event>, max: int, id: nat, at: int, n: nat, report: Option<Report>, alertRaises: bool,
                              a: nat, b: nat, earlier: Job, later: Job)
    requires FollowsScript(es, id, at, n, report, alertRaises) && a <= b <= |es|
    requires Find(Run(es[..a], max), id) == Some(earlier) && Find(Run(es[..b], max), id) == Some(later)
    ensures 0 <= earlier.progress <= later.progress <= 100
  {
    ListedProgress(es, max, id, at, n, report, alertRaises, a, earlier);
    ListedProgress(es, max, id, at, n, report, alertRaises, b, later);
    OwnGrows(es, id, a, b);
    ProgressAfterMono(n, OwnCount(es, id, a) - 1, OwnCount(es, id, b) - 1, report.Some?);
  }

  lemma NextTick(before: seq<Event>, id: nat, n: nat, k: nat)
    requires k < n
    ensures before + Ticks(id, n)[..k] + [Progress(id, (k + 1) * 100 / n)] == before + Ticks(id, n)[..k + 1]
  {
  }

  lemma ScriptParts(before: seq<Event>, id: nat, n: nat, r: Report, alertRaises: bool)
    ensures var done := before + [Begin(id)] + Ticks(id, n) + [Complete(id, r)];
            before + Script(id, n, Some(r), alertRaises) == if alertRaises then done + [Fail(id)] else done
  {
  }

  class BacktestJobService {
    const maxJobs: int
    var jobs: seq<Job>
    /** Every event so far, of all jobs. */
    ghost var log: seq<Event>

    constructor (maxJobs: int)
      ensures Valid() && this.maxJobs == maxJobs && jobs == [] && log == []
    {
      this.maxJobs, jobs, log := maxJobs, [], [];
    }

    /** The table is where its events have taken it, so the theorems about Run hold of it. */
    ghost predicate Valid()
      reads this
    {
      jobs == Run(log, maxJobs)
    }

    method StartJob(id: nat, now: int)
      requires Valid()
      modifies this
      ensures Valid() && log == old(log) + [Start(id, now)]
    {
      ghost var was := jobs;
      jobs := jobs + [Fresh(id, now)];
      TrimJobs();
      Logged(was, Start(id, now));
      log := log + [Start(id, now)];
    }

    /** One more event is one more step of the run. */
    lemma Logged(was: seq<Job>, e: Event)
      requires was == Run(log, maxJobs)
      ensures Run(log + [e], maxJobs) == Step(was, e, maxJobs)
    {
      assert (log + [e])[..|log|] == log;
    }

    method TrimJobs()
      modifies this`jobs
      ensures jobs == Trimmed(old(jobs), maxJobs)
    {
      while |jobs| > maxJobs && jobs != []
        invariant Trimmed(jobs, maxJobs) == Trimmed(old(jobs), maxJobs)
        decreases |jobs|
      {
        var i := Oldest(jobs);
        jobs := jobs[..i] + jobs[i + 1..];
      }
    }

    /** Applies one event other than a start to the job's row, if it is still there. */
    method Patch(e: Event)
      requires Valid() && !e.Start?
      modifies this
      ensures Valid() && log == old(log) + [e]
    {
      Logged(jobs, e);
      jobs := Patched(jobs, e);
      log := log + [e];
    }

    /** Simulates every signal in turn and reports the progress after each one. */
    method Simulate(id: nat, candles: seq<Candle>, signals: seq<Signal>, ps: Params) returns (report: Report)
      requires Valid()
      modifies this
      ensures Valid() && log == old(log) + Ticks(id, |signals|)
      ensures IsReport(report, Trades(candles, signals, ps, |signals|), |signals|)
    {
      var acc, skipped: nat := Totals([], [], map[], 0, 0), 0;
      for n := 0 to |signals|
        invariant Upto(acc, skipped, candles, signals, ps, n)
        invariant Valid() && log == old(log) + Ticks(id, |signals|)[..n]
      {
        acc, skipped := SimulateNext(acc, skipped, candles, signals, ps, n);
        Patch(Progress(id, (n + 1) * 100 / |signals|));
        NextTick(old(log), id, |signals|, n);
      }
      assert Ticks(id, |signals|)[..|signals|] == Ticks(id, |signals|);
      report := Summarize(acc, skipped, Trades(candles, signals, ps, |signals|));
    }

    /** One job without interference: parse, simulate every signal, store the report, alert. */
    method RunJob(id: nat, candles: seq<Candle>, signals: seq<Signal>, parsed: Option<Params>, alertRaises: bool)
      returns (report: Option<Report>)
      requires Valid()
      modifies this
      ensures Valid() && log == old(log) + Script(id, |signals|, report, alertRaises)
      ensures report.Some? <==> parsed.Some?
      ensures report.Some? ==>
                IsReport(report.value, Trades(candles, signals, parsed.value, |signals|), |signals|)
    {
      Patch(Begin(id));
      match parsed
      case None =>
        report := None;
        Patch(Fail(id));
      case Some(ps) =>
        var r := Simulate(id, candles, signals, ps);
        report := Some(r);
        Patch(Complete(id, r));
        if alertRaises { Patch(Fail(id)); }
        ScriptParts(old(log), id, |signals|, r, alertRaises);
    }
  }
}
