/** When exactly the OTP limiter keeps its promise of at most 2 * limit codes per window, for every limit. */
module AuthLimits {
  import opened Prelude
  import opened Auth

  /** The verification record does not stand in the way of a request at time t. */
  predicate Unbarred(v: Option<Verify>, t: int) {
    v.None? || v.value.lockedUntil.None? || t >= v.value.lockedUntil.value
  }

  /** What one request does when no lock bars it. */
  lemma Granted(cfg: Config, ip: Ip, t: int, code: string)
    requires Unbarred(ip.verify, t) && CurrentRate(ip.rate, t).lockedUntil.None?
    requires RolledRate(cfg, CurrentRate(ip.rate, t), t).count < cfg.limit
    ensures var (ip', reply) := Request(cfg, ip, t, code);
      var r := RolledRate(cfg, CurrentRate(ip.rate, t), t);
      reply.Issued? && ip'.rate == Some(r.(count := r.count + 1)) && ip'.verify == UnlockVerifyIfAny(ip.verify, t)
  {
  }

  /** After k events: the rate record, no verification lock at or after time t, and the codes issued at ts. */
  ghost predicate At(cfg: Config, es: seq<Event>, k: nat, rate: Rate, t: int, ts: seq<int>) {
    k <= |es| && Run(cfg, es, k).rate == Some(rate) && Unbarred(Run(cfg, es, k).verify, t) && Issues(cfg, es, k) == ts
  }

  /** A code is issued; `after` and `out` are the rate record and the codes then. */
  lemma IssueAt(cfg: Config, es: seq<Event>, k: nat, rate: Rate, t: int, ts: seq<int>, next: int, after: Rate, out: seq<int>)
    requires At(cfg, es, k, rate, t, ts) && k < |es| && es[k] == Ask(t, "") && CurrentRate(Some(rate), t).lockedUntil.None?
    requires RolledRate(cfg, CurrentRate(Some(rate), t), t).count < cfg.limit && t <= next && out == ts + [t]
    requires var r := RolledRate(cfg, CurrentRate(Some(rate), t), t); after == r.(count := r.count + 1)
    ensures At(cfg, es, k + 1, after, next, out)
  {
    Granted(cfg, Run(cfg, es, k), t, "");
  }

  lemma RejectAt(cfg: Config, es: seq<Event>, k: nat, rate: Rate, t: int, next: int, ts: seq<int>)
    requires t <= next
    requires At(cfg, es, k, rate, t, ts) && k < |es| && es[k] == Ask(t, "")
    requires rate.lockedUntil.None? && t - rate.windowStart < cfg.window && rate.count >= cfg.limit
    ensures At(cfg, es, k + 1, Rate(rate.windowStart, rate.count + 1, Some(t + cfg.lock)), next, ts)
  {
  }

  /* ---- A limit of one, without verification ---- */

  function QuickHistory(l: int): seq<Event> {
    [Ask(0, ""), Ask(0, ""), Ask(l, ""), Ask(l, ""), Ask(2 * l, "")]
  }

  /** Ask, be rejected, wait for the lock: three codes within two locks. */
  lemma QuickRepeats(cfg: Config, es: seq<Event>)
    requires cfg.limit == 1 && 2 * Wait(cfg) < cfg.window && es == QuickHistory(Wait(cfg))
    ensures Issues(cfg, es, 5) == [0, Wait(cfg), 2 * Wait(cfg)]
  {
    var l := Wait(cfg);
    assert Run(cfg, es, 0) == Blank() && Issues(cfg, es, 0) == [];
    Granted(cfg, Blank(), 0, "");
    assert At(cfg, es, 1, Rate(0, 1, None), 0, [0]);
    RejectAt(cfg, es, 1, Rate(0, 1, None), 0, l, [0]);
    IssueAt(cfg, es, 2, Rate(0, 2, Some(cfg.lock)), l, [0], l, Rate(l, 1, None), [0, l]);
    RejectAt(cfg, es, 3, Rate(l, 1, None), l, 2 * l, [0, l]);
    IssueAt(cfg, es, 4, Rate(l, 2, Some(l + cfg.lock)), 2 * l, [0, l], 2 * l, Rate(2 * l, 1, None), [0, l, 2 * l]);
  }

  /* ---- A limit of one, after a verification lock ---- */

  /** Failures until the verification lock falls. */
  function Tries(cfg: Config): nat {
    if cfg.failLimit > 1 then cfg.failLimit else 1
  }

  lemma {:induction false} TriesLock(cfg: Config, es: seq<Event>, k: nat)
    requires k <= Tries(cfg) <= |es| && forall i :: 0 <= i < Tries(cfg) ==> es[i] == Try(0, "", "")
    ensures Run(cfg, es, k).rate == None && Run(cfg, es, k).otp == None && Issues(cfg, es, k) == []
    ensures k < Tries(cfg) ==> Run(cfg, es, k).verify == if k == 0 then None else Some(Verify(k, None))
    ensures k == Tries(cfg) ==> Run(cfg, es, k).verify == Some(Verify(k, Some(cfg.verifyLock)))
  {
    if k > 0 { TriesLock(cfg, es, k - 1); }
  }

  /** A verification lock, a request it denies, then codes at the end of that window, after it, and after the lock. */
  function BarredHistory(cfg: Config): seq<Event> {
    var b := cfg.verifyLock - 1;
    seq(Tries(cfg), i => Try(0, "", ""))
    + [Ask(b, ""), Ask(b + cfg.window - 1, ""), Ask(b + cfg.window, ""), Ask(b + cfg.window, ""),
       Ask(b + cfg.window + Wait(cfg), "")]
  }

  /** The denied request opens a window without counting in it. */
  lemma DeniedOpensWindow(cfg: Config, es: seq<Event>, b: int)
    requires cfg.verifyLock > 0 && es == BarredHistory(cfg) && b == cfg.verifyLock - 1
    ensures At(cfg, es, Tries(cfg) + 1, Rate(b, 0, None), cfg.verifyLock, [])
  {
    TriesLock(cfg, es, Tries(cfg));
    assert es[Tries(cfg)] == Ask(b, "");
  }

  lemma BarredRepeats(cfg: Config, es: seq<Event>, b: int)
    requires cfg.limit == 1 && cfg.verifyLock > 0 && 1 < cfg.window
    requires es == BarredHistory(cfg) && b == cfg.verifyLock - 1
    ensures Issues(cfg, es, |es|) == [b + cfg.window - 1, b + cfg.window, b + cfg.window + Wait(cfg)]
  {
    var k, w := Tries(cfg) + 1, cfg.window;
    DeniedOpensWindow(cfg, es, b);
    assert |es| == k + 4 && es[k] == Ask(b + w - 1, "") && es[k + 1] == Ask(b + w, "");
    assert es[k + 2] == Ask(b + w, "") && es[k + 3] == Ask(b + w + Wait(cfg), "");
    AfterDenial(cfg, es, b, k);
  }

  lemma AfterDenial(cfg: Config, es: seq<Event>, b: int, k: nat)
    requires cfg.limit == 1 && 1 < cfg.window && cfg.verifyLock == b + 1 && k + 4 == |es|
    requires At(cfg, es, k, Rate(b, 0, None), cfg.verifyLock, [])
    requires var w := cfg.window; es[k] == Ask(b + w - 1, "") && es[k + 1] == Ask(b + w, "")
    requires var w := cfg.window; es[k + 2] == Ask(b + w, "") && es[k + 3] == Ask(b + w + Wait(cfg), "")
    ensures Issues(cfg, es, k + 4) == [b + cfg.window - 1, b + cfg.window, b + cfg.window + Wait(cfg)]
  {
    var t := b + cfg.window;
    IssueTwice(cfg, es, b, k, t);
    RejectThenIssue(cfg, es, k + 2, t, [t - 1, t], k + 4, [t - 1, t, t + Wait(cfg)]);
  }

  /** One code at the end of the window that the denied request opened, and one in the next window. */
  lemma IssueTwice(cfg: Config, es: seq<Event>, b: int, k: nat, t: int)
    requires cfg.limit == 1 && 1 < cfg.window && cfg.verifyLock == b + 1 && k + 2 <= |es| && t == b + cfg.window
    requires At(cfg, es, k, Rate(b, 0, None), cfg.verifyLock, []) && es[k] == Ask(t - 1, "") && es[k + 1] == Ask(t, "")
    ensures At(cfg, es, k + 2, Rate(t, 1, None), t, [t - 1, t])
  {
    IssueLate(cfg, es, b, k, t);
    IssueAt(cfg, es, k + 1, Rate(b, 1, None), t, [t - 1], t, Rate(t, 1, None), [t - 1, t]);
  }

  lemma IssueLate(cfg: Config, es: seq<Event>, b: int, k: nat, t: int)
    requires cfg.limit == 1 && 1 < cfg.window && cfg.verifyLock == b + 1 && k < |es| && t == b + cfg.window
    requires At(cfg, es, k, Rate(b, 0, None), cfg.verifyLock, []) && es[k] == Ask(t - 1, "")
    ensures At(cfg, es, k + 1, Rate(b, 1, None), t, [t - 1])
  {
    assert At(cfg, es, k, Rate(b, 0, None), t - 1, []);
    IssueAt(cfg, es, k, Rate(b, 0, None), t - 1, [], t, Rate(b, 1, None), [t - 1]);
  }

  lemma RejectThenIssue(cfg: Config, es: seq<Event>, k: nat, t: int, ts: seq<int>, n: nat, out: seq<int>)
    requires n == k + 2 && out == ts + [t + Wait(cfg)]
    requires cfg.limit == 1 && 0 < cfg.window && k + 2 <= |es|
    requires At(cfg, es, k, Rate(t, 1, None), t, ts) && es[k] == Ask(t, "") && es[k + 1] == Ask(t + Wait(cfg), "")
    ensures Issues(cfg, es, n) == out
  {
    var next := t + Wait(cfg);
    RejectAt(cfg, es, k, Rate(t, 1, None), t, next, ts);
    IssueAt(cfg, es, k + 1, Rate(t, 2, Some(t + cfg.lock)), next, ts, next, Rate(next, 1, None), ts + [next]);
  }

  lemma CountThree(a: int, b: int, c: int, t: int, len: int)
    requires t <= a < t + len && t <= b < t + len && t <= c < t + len
    ensures CountIn([a, b, c], t, len) == 3
  {
    assert [a][..0] == [] && CountIn([a], t, len) == 1;
    assert [a, b][..1] == [a] && CountIn([a, b], t, len) == 2;
    assert [a, b, c][..2] == [a, b];
  }

  lemma QuickBreaks(cfg: Config, es: seq<Event>)
    requires cfg.limit == 1 && 2 * Wait(cfg) < cfg.window && es == QuickHistory(Wait(cfg))
    ensures Ordered(es) && CountIn(Issues(cfg, es, |es|), 0, cfg.window) > 2 * Limit(cfg)
  {
    QuickRepeats(cfg, es);
    CountThree(0, Wait(cfg), 2 * Wait(cfg), 0, cfg.window);
  }

  lemma BarredBreaks(cfg: Config, es: seq<Event>, b: int)
    requires cfg.limit == 1 && cfg.verifyLock > 0 && Wait(cfg) + 1 < cfg.window
    requires es == BarredHistory(cfg) && b == cfg.verifyLock - 1
    ensures Ordered(es) && CountIn(Issues(cfg, es, |es|), b + cfg.window - 1, cfg.window) > 2 * Limit(cfg)
  {
    var w := cfg.window;
    BarredRepeats(cfg, es, b);
    CountThree(b + w - 1, b + w, b + w + Wait(cfg), b + w - 1, w);
  }

  /* ---- A limit of one that holds ---- */

  /** Without a verification lock, every request counts in the window it finds: codes are at least a lock apart. */
  ghost predicate LockApart(cfg: Config, ip: Ip, ts: seq<int>, clock: int) {
    && Sorted(ts) && (forall k :: 0 <= k < |ts| ==> ts[k] <= clock) && Sparse(ts, 1, cfg.lock)
    && (ip.verify.Some? && ip.verify.value.lockedUntil.Some? ==> ip.verify.value.lockedUntil.value <= clock)
    && (ip.rate.None? ==> ts == [])
    && (ip.rate.Some? ==>
          var r := ip.rate.value;
          && ts != [] && r.windowStart == ts[|ts| - 1] && r.count >= 1
          && (r.lockedUntil.Some? ==> r.lockedUntil.value >= r.windowStart + cfg.lock))
  }

  lemma RequestKeepsApart(cfg: Config, ip: Ip, ts: seq<int>, clock: int, now: int, code: string)
    requires cfg.limit == 1 && 0 <= cfg.lock < cfg.window && LockApart(cfg, ip, ts, clock) && clock <= now
    ensures var (ip', reply) := Request(cfg, ip, now, code);
      LockApart(cfg, ip', if reply.Issued? then ts + [now] else ts, now)
  {
    var r := CurrentRate(ip.rate, now);
    if r.lockedUntil.None? {
      var rolled := RolledRate(cfg, r, now);
      RequestRate(cfg, ip, now, code);
      if rolled.count < 1 {
        Granted(cfg, ip, now, code);
        NextApart(ts, now, cfg.lock);
      }
    }
  }

  lemma NextApart(ts: seq<int>, now: int, l: int)
    requires Sorted(ts) && Sparse(ts, 1, l) && 0 <= l && (ts != [] ==> ts[|ts| - 1] + l <= now)
    ensures Sorted(ts + [now]) && Sparse(ts + [now], 1, l)
  {
  }

  lemma CheckKeepsApart(cfg: Config, ip: Ip, ts: seq<int>, clock: int, now: int, code: string, sid: string)
    requires cfg.verifyLock <= 0 && LockApart(cfg, ip, ts, clock) && clock <= now
    ensures LockApart(cfg, Check(cfg, ip, now, code, sid).0, ts, now)
  {
    CheckKeepsRate(cfg, ip, now, code, sid);
    CheckVerify(cfg, ip, now, code, sid);
  }

  lemma {:induction false} RunKeepsApart(cfg: Config, es: seq<Event>, n: nat)
    requires cfg.limit == 1 && cfg.verifyLock <= 0 && 0 <= cfg.lock < cfg.window && Ordered(es) && n <= |es|
    ensures n > 0 ==> LockApart(cfg, Run(cfg, es, n), Issues(cfg, es, n), es[n - 1].time)
  {
    if n > 0 {
      RunKeepsApart(cfg, es, n - 1);
      var ip, ts, e := Run(cfg, es, n - 1), Issues(cfg, es, n - 1), es[n - 1];
      var clock := if n > 1 then es[n - 2].time else es[0].time;
      assert ts + [] == ts;
      match e {
        case Ask(t, c) => RequestKeepsApart(cfg, ip, ts, clock, t, c);
        case Try(t, c, sid) =>
          CheckKeepsRate(cfg, ip, t, c, sid);
          CheckKeepsApart(cfg, ip, ts, clock, t, c, sid);
      }
    }
  }

  lemma TwiceApart(ts: seq<int>, l: int, w: int)
    requires Sparse(ts, 1, l) && 2 * l >= w
    ensures Sparse(ts, 2, w)
  {
    forall i | 0 <= i && i + 2 < |ts| ensures ts[i] + w <= ts[i + 2] {
      assert ts[i] + l <= ts[i + 1] && ts[i + 1] + l <= ts[i + 1 + 1];
    }
  }

  /* ---- A limit that issues nothing ---- */

  lemma {:induction false} NothingIssued(cfg: Config, es: seq<Event>, n: nat)
    requires cfg.limit <= 0 && n <= |es|
    ensures Issues(cfg, es, n) == [] && (Run(cfg, es, n).rate.Some? ==> Run(cfg, es, n).rate.value.count >= 0)
  {
    if n > 0 {
      NothingIssued(cfg, es, n - 1);
      var ip, e := Run(cfg, es, n - 1), es[n - 1];
      match e {
        case Ask(t, c) => RequestRate(cfg, ip, t, c);
        case Try(t, c, sid) => CheckKeepsRate(cfg, ip, t, c, sid);
      }
    }
  }

  lemma SingleCodeBound(cfg: Config, es: seq<Event>, t: int)
    requires cfg.limit == 1 && cfg.verifyLock <= 0 && 0 <= cfg.lock < cfg.window <= 2 * cfg.lock && Ordered(es)
    ensures CountIn(Issues(cfg, es, |es|), t, cfg.window) <= 2 * Limit(cfg)
  {
    RunKeepsApart(cfg, es, |es|);
    if es != [] {
      TwiceApart(Issues(cfg, es, |es|), cfg.lock, cfg.window);
      SparseCount(Issues(cfg, es, |es|), 2, t, cfg.window);
    }
  }

  /**
   For durations in whole seconds, every history keeps the bound exactly when the lock outlasts the window; or the
   window is empty or no code is ever issued; or the limit is one, failed verifications never lock, and two locks
   outlast the window.
   */
  lemma BoundHoldsExactly(cfg: Config)
    requires cfg.lock % MICROS_PER_SECOND == 0 && cfg.window % MICROS_PER_SECOND == 0
    ensures IssueBoundHolds(cfg) <==>
      || cfg.lock >= cfg.window
      || cfg.window <= 0
      || cfg.limit <= 0
      || (cfg.limit == 1 && cfg.verifyLock <= 0 && 2 * cfg.lock >= cfg.window)
  {
    if cfg.limit <= 0 {
      forall es, t | Ordered(es) ensures CountIn(Issues(cfg, es, |es|), t, cfg.window) <= 2 * Limit(cfg) {
        NothingIssued(cfg, es, |es|);
      }
    } else if cfg.limit >= 2 {
      BoundNeedsLongLock(cfg);
    } else if cfg.window <= 0 || cfg.lock >= cfg.window {
      LongLock(cfg);
    } else if 2 * Wait(cfg) < cfg.window {
      QuickBreaks(cfg, QuickHistory(Wait(cfg)));
    } else if cfg.verifyLock > 0 {
      BarredBreaks(cfg, BarredHistory(cfg), cfg.verifyLock - 1);
    } else {
      forall es, t | Ordered(es) ensures CountIn(Issues(cfg, es, |es|), t, cfg.window) <= 2 * Limit(cfg) {
        SingleCodeBound(cfg, es, t);
      }
    }
  }

  lemma LongLock(cfg: Config)
    requires cfg.window <= 0 || cfg.lock >= cfg.window
    ensures IssueBoundHolds(cfg)
  {
    forall es, t | Ordered(es) ensures CountIn(Issues(cfg, es, |es|), t, cfg.window) <= 2 * Limit(cfg) {
      if cfg.lock >= cfg.window { IssuesPerWindow(cfg, es, t); } else { CountInEmpty(Issues(cfg, es, |es|), t, cfg.window); }
    }
  }
}
