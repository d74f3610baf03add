/** When exactly the OTP service gives which answer, told by its earlier answers and the clock (app/services/auth.py). */
module AuthReplies {
  import opened Prelude
  import opened Auth

  /* ---- Locks, by the answers that set them ---- */

  /** Event m was answered with a lock-out that covers the moment t. */
  predicate LockedOutUntil(cfg: Config, es: seq<Event>, m: nat, t: int)
    requires m < |es|
  {
    ReplyAt(cfg, es, m).LockedOut? && t < es[m].time + cfg.verifyLock
  }

  /** A verification lock stands at event n. */
  ghost predicate VerifyBarred(cfg: Config, es: seq<Event>, n: nat)
    requires n < |es|
  {
    exists m: nat :: m < n && LockedOutUntil(cfg, es, m, es[n].time)
  }

  predicate LimitedUntil(cfg: Config, es: seq<Event>, m: nat, t: int)
    requires m < |es|
  {
    ReplyAt(cfg, es, m).RateLimited? && t < es[m].time + cfg.lock
  }

  /** A request lock stands at event n. */
  ghost predicate RequestsBarred(cfg: Config, es: seq<Event>, n: nat)
    requires n < |es|
  {
    exists m: nat :: m < n && LimitedUntil(cfg, es, m, es[n].time)
  }

  function VerifyUntil(ip: Ip): Option<int> {
    if ip.verify.Some? then ip.verify.value.lockedUntil else None
  }

  function RateUntil(ip: Ip): Option<int> {
    if ip.rate.Some? then ip.rate.value.lockedUntil else None
  }

  /** What one event does to the verification lock. */
  lemma VerifyLockStep(cfg: Config, ip: Ip, e: Event)
    ensures var (ip', reply) := React(cfg, ip, e);
      if reply.LockedOut? then
        VerifyUntil(ip') == Some(e.time + cfg.verifyLock) && (VerifyUntil(ip).Some? ==> e.time >= VerifyUntil(ip).value)
      else VerifyUntil(ip') == VerifyUntil(ip)
           || (VerifyUntil(ip') == None && VerifyUntil(ip).Some? && e.time >= VerifyUntil(ip).value)
  {
  }

  lemma RateLockStep(cfg: Config, ip: Ip, e: Event)
    ensures var (ip', reply) := React(cfg, ip, e);
      if reply.RateLimited? then
        RateUntil(ip') == Some(e.time + cfg.lock) && (RateUntil(ip).Some? ==> e.time >= RateUntil(ip).value)
      else RateUntil(ip') == RateUntil(ip)
           || (RateUntil(ip') == None && RateUntil(ip).Some? && e.time >= RateUntil(ip).value)
  {
  }

  /** A stored verification lock was set by an earlier lock-out. */
  lemma {:induction false} VerifyLockWasSet(cfg: Config, es: seq<Event>, n: nat) returns (m: nat)
    requires n <= |es| && VerifyUntil(Run(cfg, es, n)).Some?
    ensures m < n && ReplyAt(cfg, es, m).LockedOut? && VerifyUntil(Run(cfg, es, n)).value == es[m].time + cfg.verifyLock
  {
    VerifyLockStep(cfg, Run(cfg, es, n - 1), es[n - 1]);
    if ReplyAt(cfg, es, n - 1).LockedOut? { m := n - 1; } else { m := VerifyLockWasSet(cfg, es, n - 1); }
  }

  /** A lock-out is stored until its time has passed. */
  lemma {:induction false} VerifyLockStays(cfg: Config, es: seq<Event>, m: nat, n: nat)
    requires Ordered(es) && m < n <= |es| && ReplyAt(cfg, es, m).LockedOut?
    ensures VerifyUntil(Run(cfg, es, n)) == Some(es[m].time + cfg.verifyLock)
            || es[n - 1].time >= es[m].time + cfg.verifyLock
  {
    VerifyLockStep(cfg, Run(cfg, es, n - 1), es[n - 1]);
    if m < n - 1 { VerifyLockStays(cfg, es, m, n - 1); }
  }

  lemma {:induction false} RateLockWasSet(cfg: Config, es: seq<Event>, n: nat) returns (m: nat)
    requires n <= |es| && RateUntil(Run(cfg, es, n)).Some?
    ensures m < n && ReplyAt(cfg, es, m).RateLimited? && RateUntil(Run(cfg, es, n)).value == es[m].time + cfg.lock
  {
    RateLockStep(cfg, Run(cfg, es, n - 1), es[n - 1]);
    if ReplyAt(cfg, es, n - 1).RateLimited? { m := n - 1; } else { m := RateLockWasSet(cfg, es, n - 1); }
  }

  lemma {:induction false} RateLockStays(cfg: Config, es: seq<Event>, m: nat, n: nat)
    requires Ordered(es) && m < n <= |es| && ReplyAt(cfg, es, m).RateLimited?
    ensures RateUntil(Run(cfg, es, n)) == Some(es[m].time + cfg.lock) || es[n - 1].time >= es[m].time + cfg.lock
  {
    RateLockStep(cfg, Run(cfg, es, n - 1), es[n - 1]);
    if m < n - 1 { RateLockStays(cfg, es, m, n - 1); }
  }

  predicate Standing(until: Option<int>, now: int) {
    until.Some? && now < until.value
  }

  /** The stored verification lock bars event n exactly when an earlier lock-out does. */
  lemma VerifyBarredExactly(cfg: Config, es: seq<Event>, n: nat)
    requires Ordered(es) && n < |es|
    ensures Standing(VerifyUntil(Run(cfg, es, n)), es[n].time) <==> VerifyBarred(cfg, es, n)
  {
    if Standing(VerifyUntil(Run(cfg, es, n)), es[n].time) {
      var m := VerifyLockWasSet(cfg, es, n);
      assert LockedOutUntil(cfg, es, m, es[n].time);
    }
    if m: nat :| m < n && LockedOutUntil(cfg, es, m, es[n].time) {
      VerifyLockStays(cfg, es, m, n);
      assert es[n - 1].time <= es[n].time;
    }
  }

  lemma RequestsBarredExactly(cfg: Config, es: seq<Event>, n: nat)
    requires Ordered(es) && n < |es|
    ensures Standing(RateUntil(Run(cfg, es, n)), es[n].time) <==> RequestsBarred(cfg, es, n)
  {
    if Standing(RateUntil(Run(cfg, es, n)), es[n].time) {
      var m := RateLockWasSet(cfg, es, n);
      assert LimitedUntil(cfg, es, m, es[n].time);
    }
    if m: nat :| m < n && LimitedUntil(cfg, es, m, es[n].time) {
      RateLockStays(cfg, es, m, n);
      assert es[n - 1].time <= es[n].time;
    }
  }

  /* ---- Success ---- */

  /** A code is dropped only by a success, or by an attempt after its expiry. */
  lemma CodeDropped(cfg: Config, ip: Ip, e: Event)
    requires ip.otp.Some? && React(cfg, ip, e).0.otp != ip.otp
    ensures React(cfg, ip, e).1.Issued? || React(cfg, ip, e).1.Success? || e.time > ip.otp.value.expiresAt
  {
  }

  lemma IssueStores(cfg: Config, ip: Ip, e: Event)
    ensures React(cfg, ip, e).1.Issued? ==> e.Ask? && React(cfg, ip, e).0.otp == Some(Otp(e.code, e.time + cfg.otpTtl))
  {
  }

  /** The latest unused code is stored until somebody tries after its expiry. */
  lemma {:induction false} LiveCodeIsStored(cfg: Config, es: seq<Event>, n: nat, k: nat)
    requires Ordered(es) && n <= |es| && Live(cfg, es, n, k)
    ensures es[k].Ask?
    ensures Run(cfg, es, n).otp == Some(Otp(es[k].code, es[k].time + cfg.otpTtl))
            || es[n - 1].time > es[k].time + cfg.otpTtl
  {
    var e, ip := es[n - 1], Run(cfg, es, n - 1);
    if k == n - 1 {
      IssueStores(cfg, ip, e);
    } else {
      LiveCodeIsStored(cfg, es, n - 1, k);
      assert es[n - 2].time <= e.time;
      assert !ReplyAt(cfg, es, n - 1).Issued? && !ReplyAt(cfg, es, n - 1).Success?;
      if ip.otp.Some? && Run(cfg, es, n).otp != ip.otp { CodeDropped(cfg, ip, e); }
    }
  }

  /** When a verification is answered with a session, by the record. */
  lemma SuccessByRecord(cfg: Config, ip: Ip, e: Event)
    ensures React(cfg, ip, e).1.Success? <==>
      && e.Try? && !Standing(VerifyUntil(ip), e.time)
      && ip.otp.Some? && ip.otp.value.code == e.code && e.time <= ip.otp.value.expiresAt
  {
  }

  /** Issue k is the latest, unused, carries the code tried at event n, and has not expired. */
  ghost predicate Accepts(cfg: Config, es: seq<Event>, n: nat, k: nat)
    requires n < |es|
  {
    && Live(cfg, es, n, k) && k < |es| && es[k].Ask? && es[n].Try?
    && es[k].code == es[n].code && es[n].time <= es[k].time + cfg.otpTtl
  }

  /**
   Over every history whose clock does not go back, a verification opens a session if and only if it carries the
   code of the latest unused issue, in time, and no earlier lock-out still stands. Earlier mistakes do not count.
   */
  lemma SuccessExactly(cfg: Config, es: seq<Event>, n: nat)
    requires Ordered(es) && n < |es|
    ensures ReplyAt(cfg, es, n).Success? <==> !VerifyBarred(cfg, es, n) && exists k: nat :: Accepts(cfg, es, n, k)
  {
    SuccessByRecord(cfg, Run(cfg, es, n), es[n]);
    VerifyBarredExactly(cfg, es, n);
    if ReplyAt(cfg, es, n).Success? {
      var k := SuccessUsesLatestCode(cfg, es, n);
      assert Accepts(cfg, es, n, k);
    }
    if k: nat :| Accepts(cfg, es, n, k) {
      LiveCodeIsStored(cfg, es, n, k);
      assert es[n - 1].time <= es[n].time;
    }
  }

  /** Issue k is the latest, unused and in time at event n. */
  ghost predicate InTime(cfg: Config, es: seq<Event>, n: nat, k: nat)
    requires n < |es|
  {
    Live(cfg, es, n, k) && k < |es| && es[k].Ask? && es[n].time <= es[k].time + cfg.otpTtl
  }

  /** A counted failure is a mismatch exactly when there is a code to match in time. */
  lemma MismatchExactly(cfg: Config, es: seq<Event>, n: nat)
    requires Ordered(es) && n < |es| && ReplyAt(cfg, es, n).Failed?
    ensures ReplyAt(cfg, es, n).kind == Mismatch <==> exists k: nat :: InTime(cfg, es, n, k)
  {
    KindByRecord(cfg, Run(cfg, es, n), es[n]);
    if ReplyAt(cfg, es, n).kind == Mismatch {
      var k := StoredCodeIsLive(cfg, es, n);
      assert InTime(cfg, es, n, k);
    }
    if k: nat :| InTime(cfg, es, n, k) {
      LiveCodeIsStored(cfg, es, n, k);
      assert es[n - 1].time <= es[n].time;
    }
  }

  lemma KindByRecord(cfg: Config, ip: Ip, e: Event)
    requires React(cfg, ip, e).1.Failed?
    ensures var kind := React(cfg, ip, e).1.kind;
      && (kind == NotRequested <==> ip.otp.None?)
      && (kind == Expired <==> ip.otp.Some? && e.time > ip.otp.value.expiresAt)
      && (kind == Mismatch <==> ip.otp.Some? && e.time <= ip.otp.value.expiresAt)
  {
  }

  /** A mistyped code does not spend the right one. */
  lemma TypoIsForgiven(cfg: Config, es: seq<Event>)
    requires cfg.failLimit > 1 && cfg.limit > 0 && cfg.window > 0 && cfg.otpTtl >= 2
    requires es == [Ask(0, "1234"), Try(1, "1243", "A"), Try(2, "1234", "B")]
    ensures ReplyAt(cfg, es, 2) == Success("B", 2 + cfg.sessionTtl)
  {
    assert Run(cfg, es, 0) == Blank();
    assert Run(cfg, es, 1) == Ip(Some(Rate(0, 1, None)), None, Some(Otp("1234", cfg.otpTtl)));
    assert Run(cfg, es, 2).otp == Some(Otp("1234", cfg.otpTtl)) && Run(cfg, es, 2).verify == Some(Verify(1, None));
  }

  /* ---- Failures ---- */

  /** Failures answered since the last success or lock-out. */
  function FailRun(cfg: Config, es: seq<Event>, n: nat): nat
    requires n <= |es|
  {
    if n == 0 then 0
    else
      var reply := ReplyAt(cfg, es, n - 1);
      if reply.Success? || reply.LockedOut? then 0
      else FailRun(cfg, es, n - 1) + if reply.Failed? then 1 else 0
  }

  function Fails(ip: Ip): int {
    if ip.verify.Some? && ip.verify.value.lockedUntil.None? then ip.verify.value.fails else 0
  }

  lemma FailStep(cfg: Config, ip: Ip, e: Event)
    ensures var (ip', reply) := React(cfg, ip, e);
      && (reply.Failed? ==> reply.fails == Fails(ip) + 1 == Fails(ip') && reply.fails < cfg.failLimit)
      && (reply.LockedOut? ==> reply.fails == Fails(ip) + 1 >= cfg.failLimit && Fails(ip') == 0)
      && (reply.Success? ==> Fails(ip') == 0)
      && (!reply.Failed? && !reply.LockedOut? && !reply.Success? ==> Fails(ip') == Fails(ip))
  {
  }

  /** Every failure answers its number in the current run, and exactly the one that reaches the limit locks. */
  lemma {:induction false} FailuresAreNumbered(cfg: Config, es: seq<Event>, n: nat)
    requires n <= |es|
    ensures Fails(Run(cfg, es, n)) == FailRun(cfg, es, n)
    ensures n < |es| ==>
      && (ReplyAt(cfg, es, n).Failed? ==> ReplyAt(cfg, es, n).fails == FailRun(cfg, es, n) + 1 < cfg.failLimit)
      && (ReplyAt(cfg, es, n).LockedOut? ==> ReplyAt(cfg, es, n).fails == FailRun(cfg, es, n) + 1 >= cfg.failLimit)
  {
    if n > 0 {
      FailuresAreNumbered(cfg, es, n - 1);
      FailStep(cfg, Run(cfg, es, n - 1), es[n - 1]);
    }
    if n < |es| { FailStep(cfg, Run(cfg, es, n), es[n]); }
  }

  /** A verification that is neither barred nor accepted is a failure; a barred one is told how long to wait. */
  lemma TryReplies(cfg: Config, es: seq<Event>, n: nat)
    requires Ordered(es) && n < |es| && es[n].Try?
    ensures ReplyAt(cfg, es, n).VerifyLocked? <==> VerifyBarred(cfg, es, n)
    ensures IsFailure(ReplyAt(cfg, es, n)) <==> !VerifyBarred(cfg, es, n) && !ReplyAt(cfg, es, n).Success?
  {
    VerifyBarredExactly(cfg, es, n);
    TryByRecord(cfg, Run(cfg, es, n), es[n]);
  }

  lemma TryByRecord(cfg: Config, ip: Ip, e: Event)
    requires e.Try?
    ensures var reply := React(cfg, ip, e).1;
      && (reply.VerifyLocked? <==> Standing(VerifyUntil(ip), e.time))
      && (reply.VerifyLocked? || reply.Success? || IsFailure(reply))
      && (reply.VerifyLocked? ==> reply.retryAfter == RetryAfter(VerifyUntil(ip).value, e.time))
  {
  }

  /** The wait that is announced: whole seconds, rounded down, and never below one. */
  lemma RetryAfterMeaning(until: int, now: int)
    ensures RetryAfter(until, now) >= 1
    ensures until - now >= MICROS_PER_SECOND ==>
      RetryAfter(until, now) * MICROS_PER_SECOND <= until - now < (RetryAfter(until, now) + 1) * MICROS_PER_SECOND
    ensures until - now < MICROS_PER_SECOND ==> RetryAfter(until, now) == 1
  {
  }

  /* ---- Requests ---- */

  /** The counted issues are the last ones, and lie in the stored window. */
  ghost predicate CountsRecent(cfg: Config, rate: Option<Rate>, ts: seq<int>, clock: int) {
    && (forall k :: 0 <= k < |ts| ==> ts[k] <= clock)
    && (rate.Some? && rate.value.lockedUntil.None? ==>
          var r := rate.value;
          && 0 <= r.count <= |ts| && r.windowStart <= clock
          && forall k :: |ts| - r.count <= k < |ts| ==> r.windowStart <= ts[k])
  }

  lemma RequestKeepsRecent(cfg: Config, ip: Ip, ts: seq<int>, clock: int, now: int, code: string)
    requires CountsRecent(cfg, ip.rate, ts, clock) && clock <= now
    ensures var (ip', reply) := Request(cfg, ip, now, code);
      CountsRecent(cfg, ip'.rate, if reply.Issued? then ts + [now] else ts, now)
  {
    RequestRate(cfg, ip, now, code);
  }

  lemma {:induction false} RunCountsRecent(cfg: Config, es: seq<Event>, n: nat)
    requires Ordered(es) && n <= |es|
    ensures n > 0 ==> CountsRecent(cfg, Run(cfg, es, n).rate, Issues(cfg, es, n), es[n - 1].time)
  {
    if n > 0 {
      RunCountsRecent(cfg, es, n - 1);
      var ip, ts, e := Run(cfg, es, n - 1), Issues(cfg, es, n - 1), es[n - 1];
      var clock := if n > 1 then es[n - 2].time else es[0].time;
      assert CountsRecent(cfg, ip.rate, ts, clock);
      assert ts + [] == ts;
      match e {
        case Ask(t, c) => RequestKeepsRecent(cfg, ip, ts, clock, t, c);
        case Try(t, c, sid) => CheckKeepsRate(cfg, ip, t, c, sid);
      }
    }
  }

  lemma {:induction false} CountLast(ts: seq<int>, c: nat, t: int, len: int)
    requires c <= |ts| && forall k :: |ts| - c <= k < |ts| ==> t <= ts[k] < t + len
    ensures CountIn(ts, t, len) >= c
  {
    if c > 0 { CountLast(ts[..|ts| - 1], c - 1, t, len); }
  }

  lemma RequestByRecord(cfg: Config, ip: Ip, e: Event)
    requires e.Ask?
    ensures var (ip', reply) := React(cfg, ip, e);
      && (reply.RequestLocked? <==> Standing(RateUntil(ip), e.time))
      && (reply.RequestLocked? ==> reply.retryAfter == RetryAfter(RateUntil(ip).value, e.time))
      && (reply.RequestDenied? <==> !Standing(RateUntil(ip), e.time) && Standing(VerifyUntil(ip), e.time))
      && (reply.RequestLocked? || reply.RequestDenied? || reply.RateLimited? || reply.Issued?)
      && (reply.Issued? ==> reply == Issued(e.code, e.time + cfg.otpTtl))
  {
  }

  /** Who is refused for a lock: requests under a request lock, then requests under a verification lock. */
  lemma LockedRequests(cfg: Config, es: seq<Event>, n: nat)
    requires Ordered(es) && n < |es| && es[n].Ask?
    ensures ReplyAt(cfg, es, n).RequestLocked? <==> RequestsBarred(cfg, es, n)
    ensures ReplyAt(cfg, es, n).RequestDenied? <==> !RequestsBarred(cfg, es, n) && VerifyBarred(cfg, es, n)
  {
    RequestsBarredExactly(cfg, es, n);
    VerifyBarredExactly(cfg, es, n);
    RequestByRecord(cfg, Run(cfg, es, n), es[n]);
  }

  /**
   A request is granted whenever no lock stands and fewer codes than the limit were issued within one window before
   it: a rate-limit rejection means that as many as the limit were.
   */
  lemma GrantedUnderLimit(cfg: Config, es: seq<Event>, n: nat)
    requires Ordered(es) && n < |es| && es[n].Ask? && !RequestsBarred(cfg, es, n) && !VerifyBarred(cfg, es, n)
    requires CountIn(Issues(cfg, es, n), es[n].time - cfg.window + 1, cfg.window) < cfg.limit
    ensures ReplyAt(cfg, es, n).Issued?
  {
    RequestsBarredExactly(cfg, es, n);
    VerifyBarredExactly(cfg, es, n);
    RunCountsRecent(cfg, es, n);
    var clock := if n > 0 then es[n - 1].time else es[n].time;
    assert CountsRecent(cfg, Run(cfg, es, n).rate, Issues(cfg, es, n), clock) && clock <= es[n].time;
    GrantedByRecord(cfg, Run(cfg, es, n), es[n], Issues(cfg, es, n), clock);
  }

  lemma GrantedByRecord(cfg: Config, ip: Ip, e: Event, ts: seq<int>, clock: int)
    requires e.Ask? && CountsRecent(cfg, ip.rate, ts, clock) && clock <= e.time
    requires !Standing(RateUntil(ip), e.time) && !Standing(VerifyUntil(ip), e.time)
    requires CountIn(ts, e.time - cfg.window + 1, cfg.window) < cfg.limit
    ensures React(cfg, ip, e).1.Issued?
  {
    RequestByRecord(cfg, ip, e);
    RequestRate(cfg, ip, e.time, e.code);
    CountedByRecord(cfg, ip.rate, ts, clock, e.time);
  }

  /** What the rate record counts at an unlocked request was issued within one window before it. */
  lemma CountedByRecord(cfg: Config, rate: Option<Rate>, ts: seq<int>, clock: int, now: int)
    requires CountsRecent(cfg, rate, ts, clock) && clock <= now
    requires rate.Some? ==> !Standing(rate.value.lockedUntil, now)
    ensures var r := RolledRate(cfg, CurrentRate(rate, now), now);
      r.count <= 0 || r.count <= CountIn(ts, now - cfg.window + 1, cfg.window)
  {
    var r := RolledRate(cfg, CurrentRate(rate, now), now);
    if rate.Some? && r.count > 0 {
      assert r == rate.value;
      CountLast(ts, r.count, now - cfg.window + 1, cfg.window);
    }
  }
}
