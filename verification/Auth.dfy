/** The OTP limiter of app/services/auth.py: one IP's state machine, and the service that keeps one per IP. */
module Auth {
  import opened Prelude

  const MICROS_PER_SECOND := 1_000_000

  /** All durations in microseconds, the resolution of the clock. */
  datatype Config = Config(
    otpTtl: int, window: int, limit: int, lock: int, failLimit: int, verifyLock: int, sessionTtl: int)

  datatype Rate = Rate(windowStart: int, count: int, lockedUntil: Option<int>)

  datatype Verify = Verify(fails: int, lockedUntil: Option<int>)

  datatype Otp = Otp(code: string, expiresAt: int)

  /** Everything the service remembers about one IP. */
  datatype Ip = Ip(rate: Option<Rate>, verify: Option<Verify>, otp: Option<Otp>)

  datatype FailKind = NotRequested | Expired | Mismatch

  datatype Reply =
    | Issued(code: string, expiresAt: int)
    | RequestLocked(retryAfter: int)
    | RequestDenied(retryAfter: int)                 // verification is locked
    | RateLimited(retryAfter: int)
    | Success(sessionId: string, sessionExpires: int)
    | VerifyLocked(retryAfter: int)
    | Failed(kind: FailKind, fails: int)
    | LockedOut(retryAfter: int, fails: int)

  /** Whole seconds left, at least one. */
  function RetryAfter(until: int, now: int): int {
    var left := (until - now) / MICROS_PER_SECOND;
    if left > 1 then left else 1
  }

  /** The rate record a request works on: new, unlocked because its lock ran out, or as stored. */
  function CurrentRate(rate: Option<Rate>, now: int): Rate {
    if rate.None? then Rate(now, 0, None)
    else if rate.value.lockedUntil.Some? && now >= rate.value.lockedUntil.value then Rate(now, 0, None)
    else rate.value
  }

  function UnlockVerify(v: Verify, now: int): Verify {
    if v.lockedUntil.Some? && now >= v.lockedUntil.value then Verify(0, None) else v
  }

  function UnlockVerifyIfAny(v: Option<Verify>, now: int): Option<Verify> {
    if v.Some? then Some(UnlockVerify(v.value, now)) else None
  }

  function RolledRate(cfg: Config, r: Rate, now: int): Rate {
    if now - r.windowStart >= cfg.window then Rate(now, 0, None) else r
  }

  /** A request for a code. */
  function Request(cfg: Config, ip: Ip, now: int, code: string): (Ip, Reply) {
    var r := CurrentRate(ip.rate, now);
    if r.lockedUntil.Some? then (ip.(rate := Some(r)), RequestLocked(RetryAfter(r.lockedUntil.value, now)))
    else
      var v := UnlockVerifyIfAny(ip.verify, now);
      if v.Some? && v.value.lockedUntil.Some? then
        (ip.(rate := Some(r), verify := v), RequestDenied(RetryAfter(v.value.lockedUntil.value, now)))
      else
        var rolled := RolledRate(cfg, r, now);
        var counted := rolled.(count := rolled.count + 1);
        if counted.count > cfg.limit then
          (ip.(rate := Some(counted.(lockedUntil := Some(now + cfg.lock))), verify := v),
           RateLimited(RetryAfter(now + cfg.lock, now)))
        else
          (Ip(Some(counted), v, Some(Otp(code, now + cfg.otpTtl))), Issued(code, now + cfg.otpTtl))
  }

  /** A failed verification, counted on an unlocked record. */
  function Fail(cfg: Config, ip: Ip, v: Verify, now: int, kind: FailKind): (Ip, Reply) {
    var n := v.fails + 1;
    if n >= cfg.failLimit then
      (ip.(verify := Some(Verify(n, Some(now + cfg.verifyLock)))), LockedOut(RetryAfter(now + cfg.verifyLock, now), n))
    else (ip.(verify := Some(Verify(n, None))), Failed(kind, n))
  }

  /** A verification attempt; `sid` is the fresh session id it would create. */
  function Check(cfg: Config, ip: Ip, now: int, code: string, sid: string): (Ip, Reply) {
    var v := UnlockVerify(if ip.verify.Some? then ip.verify.value else Verify(0, None), now);
    if v.lockedUntil.Some? then (ip.(verify := Some(v)), VerifyLocked(RetryAfter(v.lockedUntil.value, now)))
    else if ip.otp.None? then Fail(cfg, ip, v, now, NotRequested)
    else if now > ip.otp.value.expiresAt then Fail(cfg, ip.(otp := None), v, now, Expired)
    else if ip.otp.value.code != code then Fail(cfg, ip, v, now, Mismatch)
    else (ip.(otp := None, verify := Some(Verify(0, None))), Success(sid, now + cfg.sessionTtl))
  }

  /* ---- Histories of one IP ---- */

  datatype Event = Ask(time: int, code: string) | Try(time: int, code: string, sid: string)

  function Blank(): Ip { Ip(None, None, None) }

  function React(cfg: Config, ip: Ip, e: Event): (Ip, Reply) {
    match e
    case Ask(t, c) => Request(cfg, ip, t, c)
    case Try(t, c, sid) => Check(cfg, ip, t, c, sid)
  }

  /** The record after the first n events. */
  function Run(cfg: Config, es: seq<Event>, n: nat): Ip
    requires n <= |es|
  {
    if n == 0 then Blank() else React(cfg, Run(cfg, es, n - 1), es[n - 1]).0
  }

  function ReplyAt(cfg: Config, es: seq<Event>, k: nat): Reply
    requires k < |es|
  {
    React(cfg, Run(cfg, es, k), es[k]).1
  }

  /** The clock never goes back. */
  ghost predicate Ordered(es: seq<Event>) {
    forall a, b :: 0 <= a <= b < |es| ==> es[a].time <= es[b].time
  }

  /** Times at which codes were issued, in order. */
  function Issues(cfg: Config, es: seq<Event>, n: nat): seq<int>
    requires n <= |es|
  {
    if n == 0 then []
    else Issues(cfg, es, n - 1) + if ReplyAt(cfg, es, n - 1).Issued? then [es[n - 1].time] else []
  }

  /** How many of the times lie in the half-open interval [t, t + len). */
  function CountIn(ts: seq<int>, t: int, len: int): nat {
    if ts == [] then 0
    else CountIn(ts[..|ts| - 1], t, len) + if t <= ts[|ts| - 1] < t + len then 1 else 0
  }

  ghost predicate Sorted(ts: seq<int>) {
    forall a, b :: 0 <= a <= b < |ts| ==> ts[a] <= ts[b]
  }

  /** Any two times that are `gap` places apart are at least `len` apart. */
  ghost predicate Sparse(ts: seq<int>, gap: nat, len: int) {
    forall i :: 0 <= i && i + gap < |ts| ==> ts[i] + len <= ts[i + gap]
  }

  lemma {:induction false} CountSuffix(ts: seq<int>, t: int, len: int)
    requires Sorted(ts) && (ts != [] ==> ts[|ts| - 1] < t + len)
    ensures CountIn(ts, t, len) <= |ts|
    ensures forall k :: |ts| - CountIn(ts, t, len) <= k < |ts| ==> t <= ts[k]
  {
    if ts != [] {
      var n := |ts| - 1;
      CountSuffix(ts[..n], t, len);
    }
  }

  /** Sparse times put at most `gap` of themselves into any half-open interval of that length. */
  lemma {:induction false} SparseCount(ts: seq<int>, gap: nat, t: int, len: int)
    requires Sorted(ts) && Sparse(ts, gap, len)
    ensures CountIn(ts, t, len) <= gap
  {
    if ts != [] {
      var n := |ts| - 1;
      if ts[n] < t + len {
        CountSuffix(ts, t, len);
        if gap <= n { assert ts[n - gap] + len <= ts[n - gap + gap]; }
      } else {
        SparseCount(ts[..n], gap, t, len);
      }
    }
  }

  /* ---- Issue limit ---- */

  function Limit(cfg: Config): nat {
    if cfg.limit > 0 then cfg.limit else 0
  }

  /** Codes issued in the current window. */
  function InWindow(cfg: Config, r: Rate): int {
    if r.count <= cfg.limit then r.count else Limit(cfg)
  }

  /**
   The issues made before the current window precede it, and all but the last `limit` of those lie at
   least a whole window before it.
   */
  ghost predicate IssueInv(cfg: Config, rate: Option<Rate>, ts: seq<int>, clock: int) {
    && Sorted(ts) && (forall k :: 0 <= k < |ts| ==> ts[k] <= clock)
    && Sparse(ts, 2 * Limit(cfg), cfg.window)
    && (rate.None? ==> ts == [])
    && (rate.Some? ==>
          var r := rate.value;
          var before := |ts| - InWindow(cfg, r);
          && 0 <= r.count && 0 <= before && r.windowStart <= clock
          && (forall k :: 0 <= k < before ==> ts[k] <= r.windowStart)
          && (forall k :: before <= k < |ts| ==> r.windowStart <= ts[k])
          && (forall k :: 0 <= k && k + Limit(cfg) < before ==> ts[k] + cfg.window <= r.windowStart)
          && (r.lockedUntil.Some? ==> r.lockedUntil.value >= r.windowStart + cfg.window))
  }

  /** Starting a new window keeps the invariant if it starts a window length after the old one. */
  lemma NewWindow(cfg: Config, r: Rate, ts: seq<int>, clock: int, now: int)
    requires IssueInv(cfg, Some(r), ts, clock) && clock <= now && now >= r.windowStart + cfg.window
    ensures IssueInv(cfg, Some(Rate(now, 0, None)), ts, now)
  {
  }

  lemma CountedIssue(cfg: Config, r: Rate, ts: seq<int>, now: int)
    requires IssueInv(cfg, Some(r), ts, now) && r.count + 1 <= cfg.limit
    ensures IssueInv(cfg, Some(r.(count := r.count + 1)), ts + [now], now)
  {
    var ts' := ts + [now];
    forall i | 0 <= i && i + 2 * Limit(cfg) < |ts'| ensures ts'[i] + cfg.window <= ts'[i + 2 * Limit(cfg)] {
      if i + 2 * Limit(cfg) == |ts| {
        assert i + Limit(cfg) < |ts| - InWindow(cfg, r);
      }
    }
  }

  lemma CurrentRateKeeps(cfg: Config, rate: Option<Rate>, ts: seq<int>, clock: int, now: int)
    requires IssueInv(cfg, rate, ts, clock) && clock <= now
    ensures IssueInv(cfg, Some(CurrentRate(rate, now)), ts, now)
  {
    if rate.Some? && rate.value.lockedUntil.Some? && now >= rate.value.lockedUntil.value {
      NewWindow(cfg, rate.value, ts, clock, now);
    }
  }

  lemma RolledRateKeeps(cfg: Config, r: Rate, ts: seq<int>, now: int)
    requires IssueInv(cfg, Some(r), ts, now)
    ensures IssueInv(cfg, Some(RolledRate(cfg, r, now)), ts, now)
  {
    if now - r.windowStart >= cfg.window { NewWindow(cfg, r, ts, now, now); }
  }

  /** Verification never touches the request limiter. */
  lemma CheckKeepsRate(cfg: Config, ip: Ip, now: int, code: string, sid: string)
    ensures Check(cfg, ip, now, code, sid).0.rate == ip.rate && !Check(cfg, ip, now, code, sid).1.Issued?
  {
  }

  /** The rate record after a request: as found, or rolled and counted, then locked or not. */
  lemma RequestRate(cfg: Config, ip: Ip, now: int, code: string)
    ensures var (ip', reply), r := Request(cfg, ip, now, code), CurrentRate(ip.rate, now);
      var rolled := RolledRate(cfg, r, now);
      || (!reply.Issued? && ip'.rate == Some(r))
      || (r.lockedUntil.None? && rolled.count + 1 <= cfg.limit && reply.Issued?
          && ip'.rate == Some(rolled.(count := rolled.count + 1)))
      || (r.lockedUntil.None? && rolled.count + 1 > cfg.limit && reply.RateLimited?
          && ip'.rate == Some(rolled.(count := rolled.count + 1, lockedUntil := Some(now + cfg.lock))))
  {
  }

  lemma CountedRejection(cfg: Config, r: Rate, ts: seq<int>, now: int)
    requires IssueInv(cfg, Some(r), ts, now) && r.count + 1 > cfg.limit && cfg.lock >= cfg.window
    ensures IssueInv(cfg, Some(r.(count := r.count + 1, lockedUntil := Some(now + cfg.lock))), ts, now)
  {
  }

  lemma ChargedKeeps(cfg: Config, r: Rate, ts: seq<int>, now: int)
    requires IssueInv(cfg, Some(r), ts, now) && cfg.lock >= cfg.window
    ensures var rolled := RolledRate(cfg, r, now);
      if rolled.count + 1 <= cfg.limit then IssueInv(cfg, Some(rolled.(count := rolled.count + 1)), ts + [now], now)
      else IssueInv(cfg, Some(rolled.(count := rolled.count + 1, lockedUntil := Some(now + cfg.lock))), ts, now)
  {
    var rolled := RolledRate(cfg, r, now);
    RolledRateKeeps(cfg, r, ts, now);
    if rolled.count + 1 <= cfg.limit { CountedIssue(cfg, rolled, ts, now); } else { CountedRejection(cfg, rolled, ts, now); }
  }

  lemma RequestKeepsIssueInv(cfg: Config, ip: Ip, ts: seq<int>, clock: int, now: int, code: string)
    requires cfg.lock >= cfg.window && IssueInv(cfg, ip.rate, ts, clock) && clock <= now
    ensures var (ip', reply) := Request(cfg, ip, now, code);
      IssueInv(cfg, ip'.rate, if reply.Issued? then ts + [now] else ts, now)
  {
    CurrentRateKeeps(cfg, ip.rate, ts, clock, now);
    RequestRate(cfg, ip, now, code);
    ChargedKeeps(cfg, CurrentRate(ip.rate, now), ts, now);
  }

  lemma ReactKeepsIssueInv(cfg: Config, ip: Ip, ts: seq<int>, clock: int, e: Event)
    requires cfg.lock >= cfg.window && IssueInv(cfg, ip.rate, ts, clock) && clock <= e.time
    ensures IssueInv(cfg, React(cfg, ip, e).0.rate, ts + (if React(cfg, ip, e).1.Issued? then [e.time] else []), e.time)
  {
    assert ts + [] == ts;
    match e {
      case Ask(t, c) => RequestKeepsIssueInv(cfg, ip, ts, clock, t, c);
      case Try(t, c, sid) => CheckKeepsRate(cfg, ip, t, c, sid);
    }
  }

  lemma {:induction false} RunKeepsIssueInv(cfg: Config, es: seq<Event>, n: nat)
    requires cfg.lock >= cfg.window && Ordered(es) && n <= |es|
    ensures n > 0 ==> IssueInv(cfg, Run(cfg, es, n).rate, Issues(cfg, es, n), es[n - 1].time)
  {
    if n > 0 {
      RunKeepsIssueInv(cfg, es, n - 1);
      var clock := if n > 1 then es[n - 2].time else es[0].time;
      assert IssueInv(cfg, Run(cfg, es, n - 1).rate, Issues(cfg, es, n - 1), clock);
      ReactKeepsIssueInv(cfg, Run(cfg, es, n - 1), Issues(cfg, es, n - 1), clock, es[n - 1]);
    }
  }

  /**
   Whatever one IP does, at most 2 * limit codes are issued in any half-open interval of one window
   length, provided the lock lasts at least a window.
   */
  lemma IssuesPerWindow(cfg: Config, es: seq<Event>, t: int)
    requires cfg.lock >= cfg.window && Ordered(es)
    ensures CountIn(Issues(cfg, es, |es|), t, cfg.window) <= 2 * Limit(cfg)
  {
    if es != [] {
      RunKeepsIssueInv(cfg, es, |es|);
      SparseCount(Issues(cfg, es, |es|), 2 * Limit(cfg), t, cfg.window);
    }
  }

  predicate Locked(rate: Option<Rate>, until: int) {
    rate.Some? && rate.value.lockedUntil == Some(until)
  }

  lemma LockHolds(cfg: Config, ip: Ip, e: Event, until: int)
    requires Locked(ip.rate, until) && e.time < until
    ensures Locked(React(cfg, ip, e).0.rate, until) && !React(cfg, ip, e).1.Issued?
  {
    if e.Try? { CheckKeepsRate(cfg, ip, e.time, e.code, e.sid); }
  }

  lemma LockStarts(cfg: Config, ip: Ip, e: Event)
    requires React(cfg, ip, e).1.RateLimited?
    ensures Locked(React(cfg, ip, e).0.rate, e.time + cfg.lock)
  {
    if e.Ask? { RequestRate(cfg, ip, e.time, e.code); }
  }

  lemma {:induction false} StillLocked(cfg: Config, es: seq<Event>, k: nat, m: nat)
    requires Ordered(es) && k < m <= |es| && ReplyAt(cfg, es, k).RateLimited?
    requires es[m - 1].time < es[k].time + cfg.lock || m == k + 1
    ensures Locked(Run(cfg, es, m).rate, es[k].time + cfg.lock)
  {
    if m == k + 1 {
      LockStarts(cfg, Run(cfg, es, k), es[k]);
    } else {
      StillLocked(cfg, es, k, m - 1);
      LockHolds(cfg, Run(cfg, es, m - 1), es[m - 1], es[k].time + cfg.lock);
    }
  }

  /** A rate-limit rejection is followed by a full lock without any code. */
  lemma NoIssueWhileLocked(cfg: Config, es: seq<Event>, k: nat, m: nat)
    requires Ordered(es) && k < m < |es| && ReplyAt(cfg, es, k).RateLimited?
    ensures ReplyAt(cfg, es, m).Issued? ==> es[m].time >= es[k].time + cfg.lock
  {
    if es[m].time < es[k].time + cfg.lock {
      StillLocked(cfg, es, k, m);
      LockHolds(cfg, Run(cfg, es, m), es[m], es[k].time + cfg.lock);
    }
  }

  /* ---- Why the lock must outlast the window ---- */

  function Repeat(t: int, n: nat): (ts: seq<int>)
    ensures |ts| == n && forall i :: 0 <= i < n ==> ts[i] == t
  {
    seq(n, i => t)
  }

  /** Within the limit and inside the window, a request is granted. */
  lemma Grants(cfg: Config, ip: Ip, t: int, ws: int, c: int)
    requires ip.rate == Some(Rate(ws, c, None)) && ip.verify == None && t - ws < cfg.window && c + 1 <= cfg.limit
    ensures var (ip', reply) := React(cfg, ip, Ask(t, ""));
      ip'.rate == Some(Rate(ws, c + 1, None)) && ip'.verify == None && reply.Issued?
  {
  }

  /** n requests at the moment t, from event k on. */
  predicate AsksAt(es: seq<Event>, k: nat, n: nat, t: int) {
    k + n <= |es| && forall i :: k <= i < k + n ==> es[i] == Ask(t, "")
  }

  /** After k events: c requests counted in the window opened at ws, no lock, and codes issued at the times ts. */
  ghost predicate Counting(cfg: Config, es: seq<Event>, k: nat, ws: int, c: int, ts: seq<int>) {
    && k <= |es| && Run(cfg, es, k).rate == Some(Rate(ws, c, None)) && Run(cfg, es, k).verify == None
    && Issues(cfg, es, k) == ts
  }

  lemma BurstOne(cfg: Config, es: seq<Event>, k: nat, t: int, ws: int, c: int, ts: seq<int>)
    requires k < |es| && es[k] == Ask(t, "") && t - ws < cfg.window && c + 1 <= cfg.limit
    requires Counting(cfg, es, k, ws, c, ts)
    ensures Counting(cfg, es, k + 1, ws, c + 1, ts + [t])
  {
    Grants(cfg, Run(cfg, es, k), t, ws, c);
  }

  /** So every request of a burst is granted: event m, count d and times `out` are where the burst ends. */
  lemma {:induction false} Burst(cfg: Config, es: seq<Event>, k: nat, n: nat, t: int, ws: int, c: int, ts: seq<int>,
                                 m: nat, d: int, out: seq<int>)
    requires AsksAt(es, k, n, t) && t - ws < cfg.window && d <= cfg.limit
    requires m == k + n && d == c + n && out == ts + Repeat(t, n)
    requires Counting(cfg, es, k, ws, c, ts)
    ensures Counting(cfg, es, m, ws, d, out)
    decreases n
  {
    if n > 0 {
      BurstOne(cfg, es, k, t, ws, c, ts);
      RepeatCons(ts, t, n);
      Burst(cfg, es, k + 1, n - 1, t, ws, c + 1, ts + [t], m, d, out);
    } else {
      assert ts + Repeat(t, 0) == ts;
    }
  }

  lemma RepeatCons(ts: seq<int>, t: int, n: nat)
    requires n > 0
    ensures ts + [t] + Repeat(t, n - 1) == ts + Repeat(t, n)
  {
    assert Repeat(t, n) == [t] + Repeat(t, n - 1);
  }

  /** A request that opens a new window is granted. */
  lemma OpensWindow(cfg: Config, es: seq<Event>, k: nat, t: int, ts: seq<int>)
    requires 0 < cfg.limit && 0 < cfg.window && k < |es| && es[k] == Ask(t, "")
    requires Run(cfg, es, k).verify == None && CurrentRate(Run(cfg, es, k).rate, t).lockedUntil.None?
    requires RolledRate(cfg, CurrentRate(Run(cfg, es, k).rate, t), t) == Rate(t, 0, None)
    requires Issues(cfg, es, k) == ts
    ensures Counting(cfg, es, k + 1, t, 1, ts + [t])
  {
    assert ReplyAt(cfg, es, k).Issued?;
  }

  /** A burst of as many requests as the limit, opening a new window, is granted in full. */
  lemma FreshBurst(cfg: Config, es: seq<Event>, k: nat, n: nat, t: int, ts: seq<int>, m: nat, out: seq<int>)
    requires m == k + n && out == ts + Repeat(t, n)
    requires 0 < n <= cfg.limit && 0 < cfg.window && AsksAt(es, k, n, t)
    requires Run(cfg, es, k).verify == None && CurrentRate(Run(cfg, es, k).rate, t).lockedUntil.None?
    requires RolledRate(cfg, CurrentRate(Run(cfg, es, k).rate, t), t) == Rate(t, 0, None)
    requires Issues(cfg, es, k) == ts
    ensures Counting(cfg, es, m, t, n, out)
  {
    OpensWindow(cfg, es, k, t, ts);
    RepeatCons(ts, t, n);
    Burst(cfg, es, k + 1, n - 1, t, t, 1, ts + [t], m, n, out);
  }

  lemma {:induction false} CountConcat(a: seq<int>, b: seq<int>, t: int, len: int)
    ensures CountIn(a + b, t, len) == CountIn(a, t, len) + CountIn(b, t, len)
  {
    if b == [] {
      assert a + b == a;
    } else {
      var n := |b| - 1;
      assert (a + b)[..|a + b| - 1] == a + b[..n];
      CountConcat(a, b[..n], t, len);
    }
  }

  lemma {:induction false} CountRepeat(x: int, n: nat, t: int, len: int)
    requires t <= x < t + len
    ensures CountIn(Repeat(x, n), t, len) == n
  {
    if n > 0 {
      assert Repeat(x, n)[..n - 1] == Repeat(x, n - 1);
      CountRepeat(x, n - 1, t, len);
    }
  }

  /** How long a lock keeps requests out; a negative one is over before the next request. */
  function Wait(cfg: Config): nat {
    if cfg.lock > 0 then cfg.lock else 0
  }

  lemma {:induction false} CountInEmpty(ts: seq<int>, t: int, len: int)
    requires len <= 0
    ensures CountIn(ts, t, len) == 0
  {
    if ts != [] { CountInEmpty(ts[..|ts| - 1], t, len); }
  }

  /** When the i-th request of the history below is made. */
  function TimeAt(cfg: Config, i: nat): int {
    if i == 0 then 0
    else if i < cfg.limit then cfg.window - 1
    else if i <= 2 * cfg.limit then cfg.window
    else cfg.window + Wait(cfg)
  }

  /** The history that beats a short lock: the end of one window, a whole second one, and a third after the lock. */
  function ShortLockHistory(cfg: Config): (es: seq<Event>)
    requires cfg.limit >= 2
    ensures |es| == 3 * cfg.limit + 1 && forall i :: 0 <= i < |es| ==> es[i] == Ask(TimeAt(cfg, i), "")
  {
    seq(3 * cfg.limit + 1, i requires 0 <= i => Ask(TimeAt(cfg, i), ""))
  }

  /** The four bursts of a history that beats a short lock. */
  ghost predicate BeatsShortLock(cfg: Config, es: seq<Event>) {
    var w, m := cfg.window, cfg.limit;
    && m >= 2 && |es| == 2 * m + 1 + m && Ordered(es)
    && AsksAt(es, 0, 1, 0) && AsksAt(es, 1, m - 1, w - 1) && AsksAt(es, m, m, w) && AsksAt(es, 2 * m, 1, w)
    && AsksAt(es, 2 * m + 1, m, w + Wait(cfg))
  }

  lemma ShortLockRejects(cfg: Config, es: seq<Event>, k: nat, t: int, ts: seq<int>)
    requires k < |es| && es[k] == Ask(t, "") && 0 < cfg.window && Counting(cfg, es, k, t, cfg.limit, ts)
    ensures Run(cfg, es, k + 1).rate == Some(Rate(t, cfg.limit + 1, Some(t + cfg.lock)))
    ensures Run(cfg, es, k + 1).verify == None && Issues(cfg, es, k + 1) == ts
  {
  }

  lemma FirstWindow(cfg: Config, es: seq<Event>, w: int, m: nat)
    requires BeatsShortLock(cfg, es) && m == cfg.limit && cfg.window == w > 1
    ensures Counting(cfg, es, m, 0, m, Repeat(0, 1) + Repeat(w - 1, m - 1))
  {
    assert Run(cfg, es, 0) == Blank() && Issues(cfg, es, 0) == [];
    assert [] + Repeat(0, 1) == Repeat(0, 1);
    FreshBurst(cfg, es, 0, 1, 0, [], 1, Repeat(0, 1));
    Burst(cfg, es, 1, m - 1, w - 1, 0, 1, Repeat(0, 1), m, m, Repeat(0, 1) + Repeat(w - 1, m - 1));
  }

  lemma SecondWindow(cfg: Config, es: seq<Event>, w: int, m: nat, ts: seq<int>)
    requires BeatsShortLock(cfg, es) && m == cfg.limit && cfg.window == w > 1 && Counting(cfg, es, m, 0, m, ts)
    ensures Run(cfg, es, 2 * m + 1).rate == Some(Rate(w, m + 1, Some(w + cfg.lock))) && Run(cfg, es, 2 * m + 1).verify == None
    ensures Issues(cfg, es, 2 * m + 1) == ts + Repeat(w, m)
  {
    FreshBurst(cfg, es, m, m, w, ts, 2 * m, ts + Repeat(w, m));
    ShortLockRejects(cfg, es, 2 * m, w, ts + Repeat(w, m));
  }

  lemma ThirdWindow(cfg: Config, es: seq<Event>, w: int, m: nat, k: nat, ts: seq<int>)
    requires m == cfg.limit >= 1 && 0 < cfg.window && AsksAt(es, k, m, w + Wait(cfg))
    requires Run(cfg, es, k).rate == Some(Rate(w, m + 1, Some(w + cfg.lock))) && Run(cfg, es, k).verify == None
    requires Issues(cfg, es, k) == ts
    ensures Issues(cfg, es, k + m) == ts + Repeat(w + Wait(cfg), m)
  {
    FreshBurst(cfg, es, k, m, w + Wait(cfg), ts, k + m, ts + Repeat(w + Wait(cfg), m));
  }

  /** The issue times of that history. */
  function ShortLockTimes(w: int, m: nat, lock: int): seq<int>
    requires m >= 1
  {
    Repeat(0, 1) + Repeat(w - 1, m - 1) + Repeat(w, m) + Repeat(w + lock, m)
  }

  lemma LaterWindows(cfg: Config, es: seq<Event>, w: int, m: nat, ts: seq<int>, n: nat)
    requires BeatsShortLock(cfg, es) && m == cfg.limit && cfg.window == w > 1 && n == |es|
    requires Counting(cfg, es, m, 0, m, ts)
    ensures Issues(cfg, es, n) == ts + Repeat(w, m) + Repeat(w + Wait(cfg), m)
  {
    SecondWindow(cfg, es, w, m, ts);
    ThirdWindow(cfg, es, w, m, n - m, ts + Repeat(w, m));
  }

  lemma ShortLockIssues(cfg: Config, es: seq<Event>, w: int, m: nat, n: nat)
    requires BeatsShortLock(cfg, es) && m == cfg.limit && cfg.window == w > 1 && n == |es|
    ensures Issues(cfg, es, n) == ShortLockTimes(w, m, Wait(cfg))
  {
    FirstWindow(cfg, es, w, m);
    LaterWindows(cfg, es, w, m, Repeat(0, 1) + Repeat(w - 1, m - 1), n);
  }

  lemma ShortLockCount(w: int, l: int, m: nat, ts: seq<int>)
    requires m >= 2 && 0 <= l && l + 1 < w
    requires ts == ShortLockTimes(w, m, l)
    ensures CountIn(ts, w - 1, w) >= 3 * m - 1
  {
    var a, b, c, d := Repeat(0, 1), Repeat(w - 1, m - 1), Repeat(w, m), Repeat(w + l, m);
    CountConcat(a + b + c, d, w - 1, w);
    CountConcat(a + b, c, w - 1, w);
    CountConcat(a, b, w - 1, w);
    CountRepeat(w - 1, m - 1, w - 1, w);
    CountRepeat(w, m, w - 1, w);
    CountRepeat(w + l, m, w - 1, w);
  }

  lemma HistoryParts(cfg: Config)
    requires cfg.limit >= 2 && 1 < cfg.window
    ensures BeatsShortLock(cfg, ShortLockHistory(cfg))
  {
  }

  lemma ShortLockBreaks(cfg: Config, es: seq<Event>)
    requires BeatsShortLock(cfg, es) && Wait(cfg) + 1 < cfg.window
    ensures CountIn(Issues(cfg, es, |es|), cfg.window - 1, cfg.window) > 2 * Limit(cfg)
  {
    ShortLockIssues(cfg, es, cfg.window, cfg.limit, |es|);
    ShortLockCount(cfg.window, Wait(cfg), cfg.limit, ShortLockTimes(cfg.window, cfg.limit, Wait(cfg)));
  }

  ghost predicate IssueBoundHolds(cfg: Config) {
    forall es, t :: Ordered(es) ==> CountIn(Issues(cfg, es, |es|), t, cfg.window) <= 2 * Limit(cfg)
  }

  /**
   For limits of two and more and durations in whole seconds, the bound holds for every history exactly
   when the lock is at least as long as the window, or the window is empty.
   */
  lemma BoundNeedsLongLock(cfg: Config)
    requires cfg.limit >= 2
    requires cfg.lock % MICROS_PER_SECOND == 0 && cfg.window % MICROS_PER_SECOND == 0
    ensures IssueBoundHolds(cfg) <==> cfg.lock >= cfg.window || cfg.window <= 0
  {
    if cfg.lock >= cfg.window {
      forall es, t | Ordered(es) ensures CountIn(Issues(cfg, es, |es|), t, cfg.window) <= 2 * Limit(cfg) {
        IssuesPerWindow(cfg, es, t);
      }
    } else if cfg.window <= 0 {
      forall es, t | Ordered(es) ensures CountIn(Issues(cfg, es, |es|), t, cfg.window) <= 2 * Limit(cfg) {
        CountInEmpty(Issues(cfg, es, |es|), t, cfg.window);
      }
    } else {
      HistoryParts(cfg);
      ShortLockBreaks(cfg, ShortLockHistory(cfg));
    }
  }

  /* ---- Verification failures ---- */

  function IsFailure(r: Reply): bool {
    r.Failed? || r.LockedOut?
  }

  /** Times of the registered failures since the last successful verification, in order. */
  function Failures(cfg: Config, es: seq<Event>, n: nat): seq<int>
    requires n <= |es|
  {
    if n == 0 then []
    else if ReplyAt(cfg, es, n - 1).Success? then []
    else Failures(cfg, es, n - 1) + if IsFailure(ReplyAt(cfg, es, n - 1)) then [es[n - 1].time] else []
  }

  function FailLimit(cfg: Config): nat {
    if cfg.failLimit > 1 then cfg.failLimit else 1
  }

  /**
   All but the failures of the current count lie a full lock in the past; while a lock stands, it ends a
   full lock after the last failure.
   */
  ghost predicate FailInv(cfg: Config, verify: Option<Verify>, ts: seq<int>, clock: int) {
    var v := if verify.Some? then verify.value else Verify(0, None);
    && Sorted(ts) && (forall k :: 0 <= k < |ts| ==> ts[k] <= clock)
    && Sparse(ts, FailLimit(cfg), cfg.verifyLock)
    && 0 <= v.fails <= |ts| && v.fails <= FailLimit(cfg)
    && (forall k :: 0 <= k < |ts| - v.fails ==> ts[k] + cfg.verifyLock <= clock)
    && (v.lockedUntil.None? ==> v.fails < FailLimit(cfg))
    && (v.lockedUntil.Some? ==> forall k :: 0 <= k < |ts| ==> ts[k] + cfg.verifyLock <= v.lockedUntil.value)
  }

  lemma UnlockKeepsFailInv(cfg: Config, verify: Option<Verify>, ts: seq<int>, clock: int, now: int)
    requires FailInv(cfg, verify, ts, clock) && clock <= now
    ensures FailInv(cfg, Some(UnlockVerify(if verify.Some? then verify.value else Verify(0, None), now)), ts, now)
    ensures FailInv(cfg, UnlockVerifyIfAny(verify, now), ts, now) && FailInv(cfg, verify, ts, now)
  {
  }

  /** The record after one more failure. */
  function FailedRecord(cfg: Config, v: Verify, now: int): Verify {
    if v.fails + 1 >= cfg.failLimit then Verify(v.fails + 1, Some(now + cfg.verifyLock)) else Verify(v.fails + 1, None)
  }

  lemma FailedRecordKeepsFailInv(cfg: Config, v: Verify, ts: seq<int>, now: int)
    requires FailInv(cfg, Some(v), ts, now) && v.lockedUntil.None?
    ensures FailInv(cfg, Some(FailedRecord(cfg, v, now)), ts + [now], now)
  {
    var ts', gap := ts + [now], FailLimit(cfg);
    forall i | 0 <= i && i + gap < |ts'| ensures ts'[i] + cfg.verifyLock <= ts'[i + gap] {
      if i + gap == |ts| { assert i < |ts| - v.fails; }
    }
  }

  function NextFailures(ts: seq<int>, r: Reply, now: int): seq<int> {
    if r.Success? then [] else ts + if IsFailure(r) then [now] else []
  }

  /** The verification record after an attempt: still locked, reset by a success, or one failure further. */
  lemma CheckVerify(cfg: Config, ip: Ip, now: int, code: string, sid: string)
    ensures var (ip', reply) := Check(cfg, ip, now, code, sid);
      var v := UnlockVerify(if ip.verify.Some? then ip.verify.value else Verify(0, None), now);
      || (!reply.Success? && !IsFailure(reply) && ip'.verify == Some(v))
      || (reply.Success? && ip'.verify == Some(Verify(0, None)))
      || (!reply.Success? && IsFailure(reply) && v.lockedUntil.None? && ip'.verify == Some(FailedRecord(cfg, v, now)))
  {
  }

  lemma CheckKeepsFailInv(cfg: Config, ip: Ip, ts: seq<int>, clock: int, now: int, code: string, sid: string)
    requires FailInv(cfg, ip.verify, ts, clock) && clock <= now
    ensures var (ip', reply) := Check(cfg, ip, now, code, sid); FailInv(cfg, ip'.verify, NextFailures(ts, reply, now), now)
  {
    var v := UnlockVerify(if ip.verify.Some? then ip.verify.value else Verify(0, None), now);
    UnlockKeepsFailInv(cfg, ip.verify, ts, clock, now);
    CheckVerify(cfg, ip, now, code, sid);
    assert ts + [] == ts;
    if v.lockedUntil.None? { FailedRecordKeepsFailInv(cfg, v, ts, now); }
  }

  /** A request can only unlock the verification record, never count against it. */
  lemma RequestVerify(cfg: Config, ip: Ip, now: int, code: string)
    ensures var (ip', reply) := Request(cfg, ip, now, code);
      (ip'.verify == ip.verify || ip'.verify == UnlockVerifyIfAny(ip.verify, now)) && !IsFailure(reply) && !reply.Success?
  {
  }

  lemma ReactKeepsFailInv(cfg: Config, ip: Ip, ts: seq<int>, clock: int, e: Event)
    requires FailInv(cfg, ip.verify, ts, clock) && clock <= e.time
    ensures FailInv(cfg, React(cfg, ip, e).0.verify, NextFailures(ts, React(cfg, ip, e).1, e.time), e.time)
  {
    assert ts + [] == ts;
    match e {
      case Ask(t, c) => RequestVerify(cfg, ip, t, c); UnlockKeepsFailInv(cfg, ip.verify, ts, clock, t);
      case Try(t, c, sid) => CheckKeepsFailInv(cfg, ip, ts, clock, t, c, sid);
    }
  }

  lemma {:induction false} RunKeepsFailInv(cfg: Config, es: seq<Event>, n: nat)
    requires Ordered(es) && n <= |es|
    ensures n > 0 ==> FailInv(cfg, Run(cfg, es, n).verify, Failures(cfg, es, n), es[n - 1].time)
  {
    if n > 0 {
      RunKeepsFailInv(cfg, es, n - 1);
      var clock := if n > 1 then es[n - 2].time else es[0].time;
      assert FailInv(cfg, Run(cfg, es, n - 1).verify, Failures(cfg, es, n - 1), clock);
      ReactKeepsFailInv(cfg, Run(cfg, es, n - 1), Failures(cfg, es, n - 1), clock, es[n - 1]);
    }
  }

  /** Between two successes, any half-open interval of one verification lock registers at most failLimit failures. */
  lemma FailuresPerLock(cfg: Config, es: seq<Event>, n: nat, t: int)
    requires Ordered(es) && n <= |es|
    ensures CountIn(Failures(cfg, es, n), t, cfg.verifyLock) <= FailLimit(cfg)
  {
    if n > 0 {
      RunKeepsFailInv(cfg, es, n);
      SparseCount(Failures(cfg, es, n), FailLimit(cfg), t, cfg.verifyLock);
    }
  }

  /* ---- Codes and sessions ---- */

  /** The issue at event k is the latest of the first n events, and no success has used it; it may be past its expiry. */
  ghost predicate Live(cfg: Config, es: seq<Event>, n: nat, k: nat)
    requires n <= |es|
  {
    && k < n && ReplyAt(cfg, es, k).Issued?
    && forall m :: k < m < n ==> !ReplyAt(cfg, es, m).Issued? && !ReplyAt(cfg, es, m).Success?
  }

  lemma CheckOtp(cfg: Config, ip: Ip, now: int, code: string, sid: string)
    ensures var (ip', reply) := Check(cfg, ip, now, code, sid);
      && (ip'.otp == ip.otp || ip'.otp == None)
      && (reply.Success? ==> ip'.otp == None && ip.otp.Some? && ip.otp.value.code == code && now <= ip.otp.value.expiresAt)
  {
  }

  lemma RequestOtp(cfg: Config, ip: Ip, now: int, code: string)
    ensures var (ip', reply) := Request(cfg, ip, now, code);
      if reply.Issued? then ip'.otp == Some(Otp(code, now + cfg.otpTtl)) else ip'.otp == ip.otp && !reply.Success?
  {
  }

  /** A stored code is always the latest one issued, still unconsumed. */
  lemma {:induction false} StoredCodeIsLive(cfg: Config, es: seq<Event>, n: nat) returns (k: nat)
    requires n <= |es| && Run(cfg, es, n).otp.Some?
    ensures Live(cfg, es, n, k) && es[k].Ask?
    ensures Run(cfg, es, n).otp.value == Otp(es[k].code, es[k].time + cfg.otpTtl)
  {
    var e, ip := es[n - 1], Run(cfg, es, n - 1);
    if e.Ask? { RequestOtp(cfg, ip, e.time, e.code); } else { CheckOtp(cfg, ip, e.time, e.code, e.sid); }
    if ReplyAt(cfg, es, n - 1).Issued? {
      k := n - 1;
    } else {
      k := StoredCodeIsLive(cfg, es, n - 1);
    }
  }

  /**
   A verification succeeds only with the code of the latest issue, no later than its expiry, and when no
   other verification has used that issue: each issued code opens at most one session.
   */
  lemma SuccessUsesLatestCode(cfg: Config, es: seq<Event>, n: nat) returns (k: nat)
    requires n < |es| && ReplyAt(cfg, es, n).Success?
    ensures Live(cfg, es, n, k) && es[k].Ask? && es[n].Try?
    ensures es[n].code == es[k].code && es[n].time <= es[k].time + cfg.otpTtl
  {
    var e, ip := es[n], Run(cfg, es, n);
    if e.Ask? { RequestOtp(cfg, ip, e.time, e.code); } else { CheckOtp(cfg, ip, e.time, e.code, e.sid); }
    k := StoredCodeIsLive(cfg, es, n);
  }

  /** Sessions opened by the first n events. */
  function Sessions(cfg: Config, es: seq<Event>, n: nat): nat
    requires n <= |es|
  {
    if n == 0 then 0 else Sessions(cfg, es, n - 1) + if ReplyAt(cfg, es, n - 1).Success? then 1 else 0
  }

  /** In every prefix of every history there are at least as many codes as sessions, a stored code not counted. */
  lemma {:induction false} SessionsAtMostCodes(cfg: Config, es: seq<Event>, n: nat)
    requires n <= |es|
    ensures Sessions(cfg, es, n) + (if Run(cfg, es, n).otp.Some? then 1 else 0) <= |Issues(cfg, es, n)|
  {
    if n > 0 {
      SessionsAtMostCodes(cfg, es, n - 1);
      var e, ip := es[n - 1], Run(cfg, es, n - 1);
      if e.Ask? { RequestOtp(cfg, ip, e.time, e.code); } else {
        CheckOtp(cfg, ip, e.time, e.code, e.sid);
        CheckKeepsRate(cfg, ip, e.time, e.code, e.sid);
      }
    }
  }

  /* ---- The service ---- */

  datatype Session = Session(ip: string, issuedAt: int, expiresAt: int)

  datatype SessionReply = Valid | NotFound | SessionExpired | IpMismatch

  /** Event i of an IP's history opened the session s under the id sid. */
  ghost predicate OpenedBy(cfg: Config, es: seq<Event>, i: nat, sid: string, s: Session) {
    && i < |es| && es[i].Try? && es[i].time == s.issuedAt && s.expiresAt == s.issuedAt + cfg.sessionTtl
    && ReplyAt(cfg, es, i) == Success(sid, s.expiresAt)
  }

  ghost predicate WasOpened(cfg: Config, es: seq<Event>, sid: string, s: Session) {
    exists i: nat :: OpenedBy(cfg, es, i, sid, s)
  }

  lemma StaysOpened(cfg: Config, es: seq<Event>, e: Event, sid: string, s: Session)
    requires WasOpened(cfg, es, sid, s)
    ensures WasOpened(cfg, es + [e], sid, s)
  {
    var i: nat :| OpenedBy(cfg, es, i, sid, s);
    RunPrefix(cfg, es, [e], i);
    assert (es + [e])[i] == es[i];
    assert OpenedBy(cfg, es + [e], i, sid, s);
  }

  ghost function LogIn(logs: map<string, seq<Event>>, ip: string): seq<Event> {
    if ip in logs then logs[ip] else []
  }

  /** Every session was opened by a success of its own IP. */
  ghost predicate SourcedIn(cfg: Config, sessions: map<string, Session>, logs: map<string, seq<Event>>) {
    forall sid :: sid in sessions ==> WasOpened(cfg, LogIn(logs, sessions[sid].ip), sid, sessions[sid])
  }

  lemma EventKeepsSourced(cfg: Config, sessions: map<string, Session>, logs: map<string, seq<Event>>, ip: string, e: Event)
    requires SourcedIn(cfg, sessions, logs)
    ensures SourcedIn(cfg, sessions, logs[ip := LogIn(logs, ip) + [e]])
  {
    forall sid | sid in sessions
      ensures WasOpened(cfg, LogIn(logs[ip := LogIn(logs, ip) + [e]], sessions[sid].ip), sid, sessions[sid])
    {
      if sessions[sid].ip == ip { StaysOpened(cfg, LogIn(logs, ip), e, sid, sessions[sid]); }
    }
  }

  /** A session is valid exactly for the IP it belongs to, up to and including its expiry; expiry is told first. */
  lemma ValidationMeaning(s: Option<Session>, ip: string, now: int)
    ensures Validation(s, ip, now) == SessionReply.Valid <==> s.Some? && s.value.ip == ip && now <= s.value.expiresAt
    ensures Validation(s, ip, now) == NotFound <==> s.None?
    ensures Validation(s, ip, now) == SessionExpired <==> s.Some? && now > s.value.expiresAt
  {
  }

  /** What validate_session answers. */
  function Validation(s: Option<Session>, ip: string, now: int): SessionReply {
    if s.None? then NotFound
    else if s.value.expiresAt < now then SessionExpired
    else if s.value.ip != ip then IpMismatch
    else Valid
  }

  lemma {:induction false} RunPrefix(cfg: Config, xs: seq<Event>, ys: seq<Event>, n: nat)
    requires n <= |xs|
    ensures Run(cfg, xs + ys, n) == Run(cfg, xs, n)
  {
    if n > 0 { RunPrefix(cfg, xs, ys, n - 1); }
  }

  /** One more event is one more reaction. */
  lemma RunNext(cfg: Config, es: seq<Event>, e: Event)
    ensures (Run(cfg, es + [e], |es| + 1), ReplyAt(cfg, es + [e], |es|)) == React(cfg, Run(cfg, es, |es|), e)
  {
    RunPrefix(cfg, es, [e], |es|);
  }

  class OtpAuthService {
    const cfg: Config
    var otpByIp: map<string, Otp>
    var rateByIp: map<string, Rate>
    var verifyByIp: map<string, Verify>
    var sessions: map<string, Session>
    /** Every call so far, by IP. */
    ghost var logs: map<string, seq<Event>>

    constructor (cfg: Config)
      ensures Valid() && Sourced() && this.cfg == cfg && sessions == map[] && logs == map[]
    {
      this.cfg := cfg;
      otpByIp, rateByIp, verifyByIp, sessions, logs := map[], map[], map[], map[], map[];
    }

    ghost function LogOf(ip: string): seq<Event>
      reads this`logs
    {
      LogIn(logs, ip)
    }

    /** Over all calls so far, the dictionaries are where Run takes each IP, so the theorems about Run hold of them. */
    ghost predicate Valid()
      reads this`rateByIp, this`verifyByIp, this`otpByIp, this`logs
    {
      forall ip :: Follows(ip)
    }

    ghost predicate Follows(ip: string)
      reads this`rateByIp, this`verifyByIp, this`otpByIp, this`logs
    {
      View(ip) == Run(cfg, LogOf(ip), |LogOf(ip)|)
    }

    /** Every stored session was opened by a success of its own IP. */
    ghost predicate Sourced()
      reads this`sessions, this`logs
    {
      SourcedIn(cfg, sessions, logs)
    }

    /** So no IP gets more than twice the limit of codes in any interval of one window. */
    lemma CodesPerWindow(ip: string, t: int)
      requires Valid() && cfg.lock >= cfg.window && Ordered(LogOf(ip))
      ensures CountIn(Issues(cfg, LogOf(ip), |LogOf(ip)|), t, cfg.window) <= 2 * Limit(cfg)
    {
      IssuesPerWindow(cfg, LogOf(ip), t);
    }

    /** The four dictionaries, seen from one IP. */
    function View(ip: string): Ip
      reads this`rateByIp, this`verifyByIp, this`otpByIp
    {
      Ip(if ip in rateByIp then Some(rateByIp[ip]) else None,
         if ip in verifyByIp then Some(verifyByIp[ip]) else None,
         if ip in otpByIp then Some(otpByIp[ip]) else None)
    }

    /** Writes an event that has been answered into its IP's log. */
    ghost method Log(ip: string, e: Event)
      requires forall other :: other != ip ==> Follows(other)
      requires View(ip) == Run(cfg, LogOf(ip) + [e], |LogOf(ip)| + 1)
      modifies this`logs
      ensures Valid() && logs == old(logs)[ip := old(LogOf(ip)) + [e]]
    {
      logs := logs[ip := LogOf(ip) + [e]];
      forall other ensures Follows(other) {
        if other != ip { assert old(Follows(other)); }
      }
    }

    /** One request, answered as the next event of its IP's history. */
    method RequestOtp(ip: string, now: int, code: string) returns (reply: Reply)
      requires Valid() && Sourced()
      modifies this
      ensures Valid() && Sourced() && logs == old(logs)[ip := old(LogOf(ip)) + [Ask(now, code)]]
      ensures reply == ReplyAt(cfg, LogOf(ip), |LogOf(ip)| - 1)
      ensures (View(ip), reply) == Request(cfg, old(View(ip)), now, code) && sessions == old(sessions)
    {
      assert Follows(ip);
      RunNext(cfg, LogOf(ip), Ask(now, code));
      reply := AnswerRequest(ip, now, code);
      forall other | other != ip ensures Follows(other) {
        assert old(Follows(other));
      }
      EventKeepsSourced(cfg, sessions, logs, ip, Ask(now, code));
      Log(ip, Ask(now, code));
    }

    method AnswerRequest(ip: string, now: int, code: string) returns (reply: Reply)
      modifies this`rateByIp, this`verifyByIp, this`otpByIp
      ensures (View(ip), reply) == Request(cfg, old(View(ip)), now, code)
      ensures forall other :: other != ip ==> View(other) == old(View(other))
    {
      var state := if ip in rateByIp then rateByIp[ip] else Rate(now, 0, None);
      if state.lockedUntil.Some? && now >= state.lockedUntil.value {
        state := Rate(now, 0, None);
      }
      rateByIp := rateByIp[ip := state];
      if state.lockedUntil.Some? {
        return RequestLocked(RetryAfter(state.lockedUntil.value, now));
      }
      if ip in verifyByIp {
        UnlockVerifyIfExpired(ip, now);
        if verifyByIp[ip].lockedUntil.Some? {
          return RequestDenied(RetryAfter(verifyByIp[ip].lockedUntil.value, now));
        }
      }
      if now - state.windowStart >= cfg.window {
        state := Rate(now, 0, None);
      }
      state := state.(count := state.count + 1);
      if state.count > cfg.limit {
        rateByIp := rateByIp[ip := state.(lockedUntil := Some(now + cfg.lock))];
        return RateLimited(RetryAfter(now + cfg.lock, now));
      }
      rateByIp := rateByIp[ip := state];
      otpByIp := otpByIp[ip := Otp(code, now + cfg.otpTtl)];
      reply := Issued(code, now + cfg.otpTtl);
    }

    /** One verification, answered as the next event of its IP's history. */
    method VerifyOtp(ip: string, now: int, code: string, sid: string) returns (reply: Reply)
      requires Valid() && Sourced()
      modifies this
      ensures Valid() && Sourced() && logs == old(logs)[ip := old(LogOf(ip)) + [Try(now, code, sid)]]
      ensures reply == ReplyAt(cfg, LogOf(ip), |LogOf(ip)| - 1)
      ensures (View(ip), reply) == Check(cfg, old(View(ip)), now, code, sid)
      ensures sessions == if reply.Success? then old(sessions)[sid := Session(ip, now, now + cfg.sessionTtl)] else old(sessions)
    {
      assert Follows(ip);
      RunNext(cfg, LogOf(ip), Try(now, code, sid));
      reply := AnswerVerify(ip, now, code, sid);
      forall other | other != ip ensures Follows(other) {
        assert old(Follows(other));
      }
      ghost var e := Try(now, code, sid);
      EventKeepsSourced(cfg, old(sessions), logs, ip, e);
      if reply.Success? {
        assert OpenedBy(cfg, LogOf(ip) + [e], |LogOf(ip)|, sid, Session(ip, now, now + cfg.sessionTtl));
      }
      Log(ip, e);
    }

    method AnswerVerify(ip: string, now: int, code: string, sid: string) returns (reply: Reply)
      modifies this`verifyByIp, this`otpByIp, this`sessions
      ensures (View(ip), reply) == Check(cfg, old(View(ip)), now, code, sid)
      ensures forall other :: other != ip ==> View(other) == old(View(other))
      ensures sessions == if reply.Success? then old(sessions)[sid := Session(ip, now, now + cfg.sessionTtl)] else old(sessions)
    {
      if ip !in verifyByIp { verifyByIp := verifyByIp[ip := Verify(0, None)]; }
      UnlockVerifyIfExpired(ip, now);
      var v := verifyByIp[ip];
      if v.lockedUntil.Some? {
        return VerifyLocked(RetryAfter(v.lockedUntil.value, now));
      }
      if ip !in otpByIp {
        reply := RegisterVerifyFailure(ip, now, NotRequested);
      } else if now > otpByIp[ip].expiresAt {
        otpByIp := otpByIp - {ip};
        reply := RegisterVerifyFailure(ip, now, Expired);
      } else if otpByIp[ip].code != code {
        reply := RegisterVerifyFailure(ip, now, Mismatch);
      } else {
        sessions := sessions[sid := Session(ip, now, now + cfg.sessionTtl)];
        otpByIp := otpByIp - {ip};
        verifyByIp := verifyByIp[ip := Verify(0, None)];
        reply := Success(sid, now + cfg.sessionTtl);
      }
    }

    method UnlockVerifyIfExpired(ip: string, now: int)
      requires ip in verifyByIp
      modifies this`verifyByIp
      ensures verifyByIp == old(verifyByIp)[ip := UnlockVerify(old(verifyByIp[ip]), now)]
    {
      var v := verifyByIp[ip];
      if v.lockedUntil.Some? && now >= v.lockedUntil.value {
        verifyByIp := verifyByIp[ip := Verify(0, None)];
      }
    }

    method RegisterVerifyFailure(ip: string, now: int, kind: FailKind) returns (reply: Reply)
      requires ip in verifyByIp && verifyByIp[ip].lockedUntil.None?
      modifies this`verifyByIp
      ensures (View(ip), reply) == Fail(cfg, old(View(ip)), old(verifyByIp[ip]), now, kind)
      ensures verifyByIp == old(verifyByIp)[ip := verifyByIp[ip]]
    {
      var n := verifyByIp[ip].fails + 1;
      if n >= cfg.failLimit {
        verifyByIp := verifyByIp[ip := Verify(n, Some(now + cfg.verifyLock))];
        return LockedOut(RetryAfter(now + cfg.verifyLock, now), n);
      }
      verifyByIp := verifyByIp[ip := Verify(n, None)];
      reply := Failed(kind, n);
    }

    /** Expired sessions are dropped; every other answer leaves the table alone. */
    method ValidateSession(sid: string, ip: string, now: int) returns (r: SessionReply)
      requires Valid() && Sourced()
      modifies this`sessions
      ensures Valid() && Sourced()
      ensures r == SessionReply.Valid ==>
        sid in sessions && WasOpened(cfg, LogOf(ip), sid, sessions[sid]) && now <= sessions[sid].issuedAt + cfg.sessionTtl
      ensures r == Validation(if sid in old(sessions) then Some(old(sessions)[sid]) else None, ip, now)
      ensures sessions == if r == SessionExpired then old(sessions) - {sid} else old(sessions)
    {
      if sid !in sessions { return NotFound; }
      var row := sessions[sid];
      if row.expiresAt < now {
        sessions := sessions - {sid};
        return SessionExpired;
      }
      if row.ip != ip { return IpMismatch; }
      r := SessionReply.Valid;
    }

    method RevokeSession(sid: string)
      requires Valid() && Sourced()
      modifies this`sessions
      ensures Valid() && Sourced() && sessions == old(sessions) - {sid}
    {
      sessions := sessions - {sid};
    }
  }
}
