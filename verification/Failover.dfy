/** The automatic failover monitor, and the reboot-notice handler that writes one of
    its variables from another goroutine.  Times are milliseconds of one clock. */
module Failover {
  import opened Types

  datatype Settings = Settings(failoverTimeout: int, rebootGracePeriod: int)

  /** How a tick that found the local standby up and the peer unhealthy ended. */
  datatype Act = BeginCountdown | KeepWaiting | Withhold | Attempt(ok: bool)

  datatype Event =
    | Notice(asked: int, at: int)                       // a handler read the clock, and later stored its deadline
    | Reset(at: int)                                    // postgres stopped, role unknown, or primary
    | Healthy(at: int)                                  // standby, peer healthy: the window is cleared
    | Unhealthy(measured: int, at: int, act: Act)       // the streak is measured, then the window is read

  /** unhealthySince, failoverPromoteDeadline and rebootSuppressUntil; None for the zero value. */
  datatype Watch = Watch(since: Option<int>, deadline: Option<int>, suppress: Option<int>)

  const Fresh := Watch(None, None, None)

  function Next(cfg: Settings, m: Watch, e: Event): Option<Watch> {
    match e
    case Notice(asked, _) => Some(m.(suppress := Some(asked + cfg.rebootGracePeriod)))
    case Reset(_) => Some(m.(since := None, deadline := None))
    case Healthy(_) => Some(Fresh)
    case Unhealthy(measured, at, act) =>
      if m.since.None? then
        if act.BeginCountdown? && measured == at
        then Some(m.(since := Some(measured), deadline := Some(measured + cfg.failoverTimeout))) else None
      else if measured - m.since.value < cfg.failoverTimeout then
        if act.KeepWaiting? then Some(m) else None
      else if m.suppress.Some? && at < m.suppress.value then
        if act.Withhold? then Some(m) else None
      else if act.Attempt? then
        Some(if act.ok then m.(since := None, deadline := None) else m)
      else None
  }

  ghost predicate Run(cfg: Settings, t: seq<Event>, ms: seq<Watch>) {
    && |ms| == |t| + 1 && ms[0] == Fresh
    && forall i :: 0 <= i < |t| ==> Step(cfg, t, ms, i)
  }

  ghost predicate Step(cfg: Settings, t: seq<Event>, ms: seq<Watch>, i: nat)
    requires i < |t| && |ms| == |t| + 1
  {
    Next(cfg, ms[i], t[i]) == Some(ms[i + 1])
  }

  /** One clock for both goroutines, and ticks do not overlap. */
  ghost predicate Clocked(t: seq<Event>) {
    && (forall i, j :: 0 <= i < j < |t| ==> t[i].at <= t[j].at)
    && (forall i :: 0 <= i < |t| && t[i].Unhealthy? ==> t[i].measured <= t[i].at)
    && (forall i :: 0 <= i < |t| && t[i].Notice? ==> t[i].asked <= t[i].at)
    && (forall i, j :: 0 <= i < j < |t| && t[i].Unhealthy? && t[j].Unhealthy? ==> t[i].at <= t[j].measured)
  }

  // ------------------------------------------------- what a promotion depends on

  /** From tick j up to tick k every tick found the standby up and the peer
      unhealthy, and none of them has already promoted. */
  ghost predicate Streak(t: seq<Event>, j: nat, k: nat) {
    && j < k <= |t| && t[j].Unhealthy?
    && forall i :: j <= i < k ==> t[i].Notice? || (t[i].Unhealthy? && t[i].act != Attempt(true))
  }

  /** The last notice before event `k` has had no healthy tick since, and its grace period is not over at `at`. */
  ghost predicate Suppressed(cfg: Settings, t: seq<Event>, k: nat, at: int)
    requires k <= |t|
  {
    exists n: nat :: LastNotice(t, n, k) && NoHealthy(t, n + 1, k) && at < t[n].asked + cfg.rebootGracePeriod
  }

  ghost predicate LastNotice(t: seq<Event>, n: nat, k: nat) {
    n < k <= |t| && t[n].Notice? && forall i :: n < i < k ==> !t[i].Notice?
  }

  ghost predicate NoHealthy(t: seq<Event>, from: nat, to: nat)
    requires to <= |t|
  {
    forall i :: from <= i < to ==> !t[i].Healthy?
  }

  lemma NoHealthyShrinks(t: seq<Event>, from: nat, to: nat)
    requires to < |t|
    ensures from <= to && NoHealthy(t, from, to + 1) ==> !t[to].Healthy? && NoHealthy(t, from, to)
  {
  }

  /** unhealthySince is set exactly during a streak, to the time of its first tick. */
  lemma {:induction false} SinceIsStreak(cfg: Settings, t: seq<Event>, ms: seq<Watch>, n: nat) returns (j: nat)
    requires Run(cfg, t, ms) && n <= |t|
    ensures ms[n].since.Some? ==> Streak(t, j, n) && ms[n].since == Some(t[j].measured)
    ensures ms[n].since.None? ==> forall i: nat :: !Streak(t, i, n)
    ensures ms[n].since.Some? ==> forall i: nat :: Streak(t, i, n) ==> j <= i
  {
    j := 0;
    if n > 0 {
      assert Step(cfg, t, ms, n - 1);
      j := SinceIsStreak(cfg, t, ms, n - 1);
      forall i: nat | Streak(t, i, n) ensures i == n - 1 || Streak(t, i, n - 1) {}
      if ms[n].since.Some? && ms[n - 1].since.None? { j := n - 1; }
    }
  }

  /** The stored deadline is that of the last notice since the last healthy tick. */
  lemma {:induction false} SuppressIsLastNotice(cfg: Settings, t: seq<Event>, ms: seq<Watch>, n: nat) returns (j: nat)
    requires Run(cfg, t, ms) && n <= |t|
    ensures ms[n].suppress.Some? ==>
      LastNotice(t, j, n) && NoHealthy(t, j + 1, n) && ms[n].suppress == Some(t[j].asked + cfg.rebootGracePeriod)
    ensures ms[n].suppress.None? ==> forall i :: 0 <= i < n && t[i].Notice? ==> !NoHealthy(t, i + 1, n)
  {
    j := 0;
    if n > 0 {
      assert Step(cfg, t, ms, n - 1);
      j := SuppressIsLastNotice(cfg, t, ms, n - 1);
      if t[n - 1].Notice? {
        j := n - 1;
      } else if ms[n].suppress.None? {
        forall i | 0 <= i < n && t[i].Notice? ensures !NoHealthy(t, i + 1, n) {
          NoHealthyShrinks(t, i + 1, n - 1);
        }
      }
    }
  }

  lemma SuppressionIsExact(cfg: Settings, t: seq<Event>, ms: seq<Watch>, k: nat, at: int)
    requires Run(cfg, t, ms) && k <= |t|
    ensures ms[k].suppress.Some? && at < ms[k].suppress.value <==> Suppressed(cfg, t, k, at)
  {
    var j := SuppressIsLastNotice(cfg, t, ms, k);
    forall n: nat | LastNotice(t, n, k) && ms[k].suppress.Some? ensures n == j {}
  }

  /** Soundness and completeness in one: a tick attempts a promotion exactly when it
      belongs to an unbroken unhealthy streak at least FailoverTimeout long and no
      notice withholds it.  So an attempt is made at the first such tick and again at
      every later one until one succeeds. */
  lemma PromotesExactly(cfg: Settings, t: seq<Event>, ms: seq<Watch>, k: nat)
    requires Run(cfg, t, ms) && Clocked(t)
    requires k < |t| && t[k].Unhealthy?
    ensures t[k].act.Attempt? <==>
      && (exists j: nat :: Streak(t, j, k) && t[k].measured - t[j].measured >= cfg.failoverTimeout)
      && !Suppressed(cfg, t, k, t[k].at)
  {
    assert Step(cfg, t, ms, k);
    var j := SinceIsStreak(cfg, t, ms, k);
    forall i: nat | Streak(t, i, k) ensures t[j].measured <= t[i].measured {
      assert j <= i;
    }
    SuppressionIsExact(cfg, t, ms, k, t[k].at);
  }

  /** failoverPromoteDeadline is never out of step with unhealthySince. */
  lemma {:induction false} DeadlineInStep(cfg: Settings, t: seq<Event>, ms: seq<Watch>, n: nat)
    requires Run(cfg, t, ms) && n <= |t|
    ensures ms[n].deadline == if ms[n].since.Some? then Some(ms[n].since.value + cfg.failoverTimeout) else None
  {
    if n > 0 {
      assert Step(cfg, t, ms, n - 1);
      DeadlineInStep(cfg, t, ms, n - 1);
    }
  }

  // ---------------------------------------------------------- the reboot notice

  /** No automatic promotion before the end of a notice's grace period, unless a healthy tick came
      after that notice, or another one whose handler had read the clock earlier. */
  lemma NoticeDelaysPromotion(cfg: Settings, t: seq<Event>, ms: seq<Watch>, n: nat, k: nat)
    requires Run(cfg, t, ms) && Clocked(t)
    requires n < k < |t| && t[n].Notice? && t[k].Unhealthy? && t[k].act.Attempt?
    ensures
      || t[k].at >= t[n].asked + cfg.rebootGracePeriod || !NoHealthy(t, n + 1, k)
      || exists m :: n < m < k && t[m].Notice? && t[m].asked < t[n].asked
  {
    PromotesExactly(cfg, t, ms, k);
    var j := SuppressIsLastNotice(cfg, t, ms, k);
    if NoHealthy(t, n + 1, k) { assert LastNotice(t, j, k) && n <= j; }
  }

  /** A repeated notice never shortens the window, exactly when its handler did not read the clock
      before the handler of the one it replaces did. */
  lemma RepeatedNoticeExtends(cfg: Settings, t: seq<Event>, ms: seq<Watch>, n: nat) returns (j: nat)
    requires Run(cfg, t, ms)
    requires n < |t| && t[n].Notice? && ms[n].suppress.Some?
    ensures LastNotice(t, j, n) && ms[n + 1].suppress.Some?
    ensures ms[n].suppress.value <= ms[n + 1].suppress.value <==> t[j].asked <= t[n].asked
  {
    assert Step(cfg, t, ms, n);
    j := SuppressIsLastNotice(cfg, t, ms, n);
  }

  const Defaults := Settings(60000, 180000)

  /** Two handlers that store in the other order than they read the clock shorten the window. */
  lemma OvertakenNoticeShortens() returns (t: seq<Event>, ms: seq<Watch>)
    ensures Run(Defaults, t, ms) && Clocked(t)
    ensures |t| == 2 && t[0].Notice? && t[1].Notice?
    ensures ms[1] == Watch(None, None, Some(180010)) && ms[2] == Watch(None, None, Some(180000))
  {
    t := [Notice(10, 20), Notice(0, 30)];
    ms := [Fresh, Watch(None, None, Some(180010)), Watch(None, None, Some(180000))];
    forall i | 0 <= i < 2 ensures Step(Defaults, t, ms, i) {}
  }

  /** The same claim without the first exception is false even with one notice: a tick that still reaches
      the peer's listeners, while it is stopping, clears the window, and with a tick every five seconds the
      promotion comes 66 seconds after a notice that asked for 180. */
  lemma NoticeAloneIsNotEnough() returns (t: seq<Event>, ms: seq<Watch>)
    ensures Run(Defaults, t, ms) && Clocked(t)
    ensures |t| == 15 && t[0] == Notice(0, 0) && t[14] == Unhealthy(66000, 66000, Attempt(true))
    ensures t[1] == Healthy(1000) && forall i :: 2 <= i < 15 ==> t[i].at == t[i - 1].at + 5000
    ensures t[14].at < t[0].asked + Defaults.rebootGracePeriod
  {
    var counting := Watch(Some(6000), Some(66000), None);
    var waits := seq(11, i requires 0 <= i < 11 => Unhealthy(11000 + 5000 * i, 11000 + 5000 * i, KeepWaiting));
    t := [Notice(0, 0), Healthy(1000), Unhealthy(6000, 6000, BeginCountdown)] + waits
      + [Unhealthy(66000, 66000, Attempt(true))];
    ms := [Fresh, Watch(None, None, Some(180000)), Fresh] + seq(12, _ => counting) + [Fresh];
    forall i | 0 <= i < 15 ensures Step(Defaults, t, ms, i) {
      if 3 <= i < 14 { assert t[i] == waits[i - 3] && ms[i] == counting == ms[i + 1]; }
    }
  }

  // ------------------------------------------------------------------ the monitor

  class Monitor {
    const cfg: Settings
    var now: int
    var unhealthySince: Option<int>
    var failoverPromoteDeadline: Option<int>
    var rebootSuppressUntil: Option<int>
    ghost var t: seq<Event>
    ghost var ms: seq<Watch>

    ghost predicate Valid()
      reads this
    {
      && Run(cfg, t, ms) && Clocked(t)
      && ms[|t|] == Watch(unhealthySince, failoverPromoteDeadline, rebootSuppressUntil)
      && forall i :: 0 <= i < |t| ==> t[i].at <= now
    }

    constructor (cfg: Settings, now: int)
      ensures Valid() && t == [] && this.cfg == cfg
    {
      this.cfg, this.now := cfg, now;
      unhealthySince, failoverPromoteDeadline, rebootSuppressUntil := None, None, None;
      t, ms := [], [Fresh];
    }

    /** No tick logged so far was measured or ended after the present moment. */
    ghost predicate TicksBefore(at: int)
      reads this`t
    {
      forall i :: 0 <= i < |t| && t[i].Unhealthy? ==> t[i].at <= at
    }

    /** The ghost record of one atomic access, written together with it. */
    ghost method Log(e: Event)
      requires Run(cfg, t, ms) && Clocked(t)
      requires e.at == now && forall i :: 0 <= i < |t| ==> t[i].at <= now
      requires e.Unhealthy? ==> e.measured <= now && TicksBefore(e.measured)
      requires e.Notice? ==> e.asked <= now
      requires Next(cfg, ms[|t|], e) == Some(Watch(unhealthySince, failoverPromoteDeadline, rebootSuppressUntil))
      modifies this`t, this`ms
      ensures Valid() && t == old(t) + [e]
    {
      var m := Watch(unhealthySince, failoverPromoteDeadline, rebootSuppressUntil);
      var t', ms' := t + [e], ms + [m];
      forall i | 0 <= i < |t'| ensures Step(cfg, t', ms', i) {
        if i < |t| { assert Step(cfg, t, ms, i); }
      }
      t, ms := t', ms';
    }

    /** handleRebootNotice, on an HTTP goroutine: reads the clock, and stores its deadline some time and any
        number of other handlers' stores later. */
    method HandleRebootNotice()
      requires Valid()
      modifies this`now, this`rebootSuppressUntil, this`t, this`ms
      ensures Valid() && old(now) <= now && old(t) <= t && OnlyNotices(old(|t|))
      ensures |t| > old(|t|) && t[|t| - 1] == Notice(old(now), now)
      ensures rebootSuppressUntil == Some(old(now) + cfg.rebootGracePeriod)
    {
      var until := now + cfg.rebootGracePeriod;
      Interfere();
      StoreDeadline(until);
    }

    /** The handler's store. */
    method StoreDeadline(until: int)
      requires Valid() && until - cfg.rebootGracePeriod <= now
      modifies this`rebootSuppressUntil, this`t, this`ms
      ensures Valid() && t == old(t) + [Notice(until - cfg.rebootGracePeriod, now)]
      ensures rebootSuppressUntil == Some(until)
    {
      rebootSuppressUntil := Some(until);
      Log(Notice(until - cfg.rebootGracePeriod, now));
    }

    ghost predicate OnlyNotices(from: nat)
      reads this`t
    {
      forall i :: from <= i < |t| ==> t[i].Notice?
    }

    /** While the monitor waits for an answer the clock moves on and any number of notices arrive. */
    method Interfere()
      requires Valid()
      modifies this`now, this`rebootSuppressUntil, this`t, this`ms
      ensures Valid() && old(now) <= now && old(t) <= t && OnlyNotices(old(|t|))
    {
      var notices: int :| notices >= 0;
      var i := 0;
      while i < notices
        invariant Valid() && old(now) <= now && old(t) <= t && OnlyNotices(old(|t|))
      {
        var d :| d >= 0;
        now := now + d;
        var asked :| asked <= now;
        StoreDeadline(asked + cfg.rebootGracePeriod);
        i := i + 1;
      }
    }

    /** Among what was logged since `from`, event k is the tick and all others are notices. */
    ghost predicate OneTick(from: nat, k: nat)
      reads this`t
    {
      && from <= k < |t| && !t[k].Notice?
      && forall i :: from <= i < |t| && i != k ==> t[i].Notice?
    }

    /** One tick of the loop, for every answer it can get: whether postgres runs,
        the local role, the peer's health and the outcome of a promotion. */
    method Tick(running: bool, role: Recovery, healthy: bool, promotes: bool) returns (ghost k: nat)
      requires Valid()
      modifies this
      ensures Valid() && old(t) <= t && OneTick(old(|t|), k)
      ensures t[k].Reset? <==> !running || !role.InRecovery?
      ensures t[k].Healthy? <==> running && role.InRecovery? && healthy
      ensures t[k].Unhealthy? && t[k].act.Attempt? ==> t[k].act.ok == promotes
      ensures old(now) <= t[k].at && (t[k].Unhealthy? ==> old(now) <= t[k].measured)
    {
      Interfere();
      k := |t|;
      if !running {
        StopCounting();
        return;
      }
      Interfere();
      k := |t|;
      if !role.InRecovery? {
        StopCounting();
        return;
      }
      Interfere();
      k := |t|;
      if healthy {
        unhealthySince, failoverPromoteDeadline := None, None;
        rebootSuppressUntil := None;
        Log(Healthy(now));
        return;
      }
      k := PeerUnhealthy(promotes);
    }

    method StopCounting()
      requires Valid()
      modifies this`unhealthySince, this`failoverPromoteDeadline, this`t, this`ms
      ensures Valid() && t == old(t) + [Reset(now)]
    {
      unhealthySince, failoverPromoteDeadline := None, None;
      Log(Reset(now));
    }

    /** The rest of the tick, once the peer has been found unhealthy. */
    method PeerUnhealthy(promotes: bool) returns (ghost k: nat)
      requires Valid()
      modifies this
      ensures Valid() && old(t) <= t && OneTick(old(|t|), k)
      ensures t[k].Unhealthy? && (t[k].act.Attempt? ==> t[k].act.ok == promotes)
      ensures t[k].measured == old(now) <= t[k].at
    {
      k := |t|;
      if unhealthySince.None? {
        unhealthySince := Some(now);
        failoverPromoteDeadline := Some(now + cfg.failoverTimeout);
        Log(Unhealthy(now, now, BeginCountdown));
        return;
      }
      var measured := now;
      if measured - unhealthySince.value < cfg.failoverTimeout {
        Log(Unhealthy(measured, now, KeepWaiting));
        return;
      }
      Interfere();
      k := PromoteUnlessWithheld(measured, promotes);
    }

    /** The last part of a tick past the timeout: read the window, then promote. */
    method PromoteUnlessWithheld(measured: int, promotes: bool) returns (ghost k: nat)
      requires Valid() && measured <= now && TicksBefore(measured)
      requires unhealthySince.Some? && measured - unhealthySince.value >= cfg.failoverTimeout
      modifies this
      ensures Valid() && old(t) <= t && OneTick(old(|t|), k)
      ensures t[k].Unhealthy? && (t[k].act.Attempt? ==> t[k].act.ok == promotes)
      ensures t[k].measured == measured && old(now) <= t[k].at
    {
      k := |t|;
      if RebootSuppressActive() {
        Log(Unhealthy(measured, now, Withhold));
        return;
      }
      if promotes {
        unhealthySince, failoverPromoteDeadline := None, None;
      }
      Log(Unhealthy(measured, now, Attempt(promotes)));
      Interfere();
    }

    /** rebootSuppressActive: some of the window is left. */
    predicate RebootSuppressActive()
      reads this`now, this`rebootSuppressUntil
    {
      rebootSuppressUntil.Some? && rebootSuppressUntil.value - now > 0
    }

    /** Any number of ticks, with notices anywhere in between: the history is one
        that the lemmas above speak about. */
    method Watching(ticks: nat)
      requires Valid()
      modifies this
      ensures Valid() && |t| >= old(|t|) + ticks
    {
      var i := 0;
      while i < ticks
        invariant Valid() && |t| >= old(|t|) + i && i <= ticks
      {
        var running: bool, role: Recovery, healthy: bool, promotes: bool := *, *, *, *;
        ghost var k := Tick(running, role, healthy, promotes);
        i := i + 1;
      }
    }
  }
}
