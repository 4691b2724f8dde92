/** The main goroutine of pg-guard: startup, the coordinated handover, and the
    select loop that serialises every start and stop of the child. */
module Supervisor {
  import opened Types
  import opened Journal
  import opened World
  import opened CrashWindow
  import opened HandoverTrace
  import Bootstrap
  import Rewind

  datatype Request = ShutdownReq | SwitchoverReq | MaintenanceReq | RebootReq | RejoinReq | StartReq

  predicate HandsOver(kind: Request) { kind.ShutdownReq? || kind.SwitchoverReq? || kind.MaintenanceReq? }

  /** The code with which the handler of a served request ends the process, if it does. */
  function ExitCode(kind: Request): Option<int> {
    match kind
    case ShutdownReq => Some(0)
    case SwitchoverReq | RebootReq => Some(78)
    case _ => None
  }

  /** What the select of the main loop received. */
  datatype Arrival =
    | Nothing | Signal(code: int) | ChildExit(code: int) | RestartTimer | Served(kind: Request, ok: bool) | ExitRequest

  predicate Rewinds(e: Event) { e.Ran? && e.tool.PgRewind? }

  /** A rejoin is begun right after each answer that named the peer primary, and never otherwise; so PGDATA is
      cleared at a fixed distance from such an answer, and the rejoin's result is too. */
  ghost predicate ReclonesAfterPrimary(t: seq<Event>, from: nat) {
    && (forall i | from <= i < |t| && t[i] == Primary :: i + 1 < |t| && Rewinds(t[i + 1]))
    && (forall i | from <= i < |t| && Rewinds(t[i]) :: i > from && t[i - 1] == Primary)
    && (forall i | from <= i < |t| && t[i].Wiped? :: i >= from + 3 && t[i - 3] == Primary)
    && (forall i | from <= i < |t| && t[i].Rejoined? :: ResultOfRejoin(t, from, i))
  }

  ghost predicate ResultOfRejoin(t: seq<Event>, from: nat, i: nat)
    requires i < |t|
  {
    || (i >= from + 3 && t[i - 3] == Primary)
    || (i >= from + 5 && t[i - 5] == Primary)
    || (i >= from + 6 && t[i - 6] == Primary)
  }

  /** Two stretches of a journal, one after the other. */
  lemma ReclonesCompose(t: seq<Event>, more: seq<Event>, from: nat)
    requires from <= |t| && t <= more
    requires ReclonesAfterPrimary(t, from) && ReclonesAfterPrimary(more, |t|)
    ensures ReclonesAfterPrimary(more, from)
  {
    forall i | from <= i < |t| ensures more[i] == t[i] {}
    forall i | from <= i < |more| && more[i].Rejoined? ensures ResultOfRejoin(more, from, i) {
      if i < |t| { assert ResultOfRejoin(t, from, i); } else { assert ResultOfRejoin(more, |t|, i); }
    }
  }

  /** One answer, and the rejoin that follows it when it named the peer primary. */
  ghost predicate Round(t: seq<Event>, n: nat, done: bool) {
    && n < |t| && t[n].AskedPeer?
    && if t[n] == Primary then Rewind.RejoinedBy(t, n + 1, done) else |t| == n + 1 && done == PeerPermits(t[n].answer)
  }

  lemma RoundReclones(t: seq<Event>, n: nat, done: bool)
    requires Round(t, n, done)
    ensures ReclonesAfterPrimary(t, n)
  {
    if t[n] == Primary {
      var u := t[..|t| - 1];
      assert Rewind.Tried(u, n + 1, done);
      assert forall i | 0 <= i < |u| :: t[i] == u[i];
      assert ResultOfRejoin(t, n, |t| - 1);
    }
  }

  lemma AnotherRound(t: seq<Event>, more: seq<Event>, from: nat, done: bool)
    requires from <= |t| && t <= more && ReclonesAfterPrimary(t, from) && Round(more, |t|, done)
    ensures t < more && ReclonesAfterPrimary(more, from)
    ensures |t| == from || t[from].AskedPeer? ==> more[from].AskedPeer?
    ensures NeverPrimary(more, from) ==> NeverPrimary(t, from) && more[|t|] != Primary
  {
    RoundReclones(more, |t|, done);
    ReclonesCompose(t, more, from);
    forall i | from <= i < |t| ensures more[i] == t[i] {}
  }

  /** One round of the startup check: ask, and re-clone from a peer that says it is primary. */
  method RejoinRound(w: World) returns (done: bool, answered: bool)
    requires w.Valid() && w.life.up.None? && w.life.licence.Undecided?
    modifies w
    ensures w.Valid() && Rewind.Stopped(w) && Round(w.t, old(|w.t|), done)
    ensures answered <==> w.t[old(|w.t|)].answer.Role?
    ensures w.t[old(|w.t|)] != Primary ==> w.now <= old(w.now) + 2000
    ensures done ==> w.life.licence.AsIs? || (w.life.licence.RejoinedInCheck? && w.data.Standby?)
    ensures !done ==> w.life.licence.Undecided?
  {
    var status := w.FetchPeerStatus();
    answered := status.Role?;
    if PeerPermits(status) { return true, true; }
    done := false;
    if answered { done := Rewind.RejoinAsStandby(w); }
  }

  ghost predicate NeverPrimary(t: seq<Event>, from: nat) { forall i | from <= i < |t| :: t[i] != Primary }

  /** How many rounds of at most three seconds it takes to fill thirty. */
  const CheckRounds := 11

  /** The retry loop of the startup check; it ends because every round moves the clock. */
  method RejoinRounds(w: World) returns (ok: bool)
    requires w.Valid() && w.life.up.None? && w.life.licence.Undecided?
    modifies w
    ensures w.Valid() && Rewind.Stopped(w) && ReclonesAfterPrimary(w.t, old(|w.t|))
    ensures |w.t| > old(|w.t|) && w.t[old(|w.t|)].AskedPeer?
    ensures ok ==> w.life.licence.AsIs? || (w.life.licence.RejoinedInCheck? && w.data.Standby?)
    ensures !ok ==> w.life.licence.Undecided? && w.now > old(w.now) + 30000
    ensures !ok && NeverPrimary(w.t, old(|w.t|)) ==> |w.t| - old(|w.t|) >= CheckRounds
  {
    var deadline := w.now + 30000;
    while true
      invariant w.Valid() && Rewind.Stopped(w) && w.life.licence.Undecided?
      invariant w.t == old(w.t) || (old(w.t) < w.t && w.t[old(|w.t|)].AskedPeer?)
      invariant ReclonesAfterPrimary(w.t, old(|w.t|))
      invariant NeverPrimary(w.t, old(|w.t|)) ==> w.now <= old(w.now) + 3000 * (|w.t| - old(|w.t|))
      decreases deadline - w.now
    {
      ghost var before := w.t;
      var answered;
      ok, answered := RejoinRound(w);
      AnotherRound(before, w.t, old(|w.t|), ok);
      if ok || w.now > deadline { return; }
      w.Sleep(if answered then 2000 else 1000);
    }
  }

  /** The part of the startup check that asks; a failure is on record. */
  method AskPeer(w: World) returns (ok: bool)
    requires w.Valid() && w.life.up.None? && w.life.licence.Undecided?
    modifies w
    ensures w.Valid() && Rewind.Stopped(w) && ReclonesAfterPrimary(w.t, old(|w.t|))
    ensures |w.t| > old(|w.t|) && w.t[old(|w.t|)].AskedPeer?
    ensures ok ==> w.life.licence.AsIs? || (w.life.licence.RejoinedInCheck? && w.data.Standby?)
    ensures !ok ==> w.life.licence.NoLicence? && w.now > old(w.now) + 30000 && w.t[|w.t| - 1] == CheckFailed
    ensures !ok && NeverPrimary(w.t, old(|w.t|)) ==> |w.t| - old(|w.t|) > CheckRounds
  {
    ok := RejoinRounds(w);
    ghost var before := w.t;
    if !ok {
      w.Log(CheckFailed, w.life.(licence := NoLicence));
      ReclonesCompose(before, w.t, old(|w.t|));
    }
  }

  /** rejoinAtStartupIfNeeded: true means the start that follows is entitled to the PGDATA as it now is. */
  method RejoinAtStartupIfNeeded(w: World) returns (ok: bool)
    requires w.Valid() && w.life.up.None? && Resting(w.life)
    modifies w
    ensures w.Valid() && Rewind.Stopped(w)
    ensures ok ==> w.life.licence.AsIs? || (OnCheck(w.life) && !InCheck(w.life) && w.data.Standby?)
    ensures old(w.t) < w.t && w.t[old(|w.t|)] == Checked(old(w.data))
    ensures w.cfg.peerHost == "" || old(w.data).Standby? ==> ok && |w.t| == old(|w.t|) + 1 && w.now == old(w.now)
    ensures w.cfg.peerHost != "" && !old(w.data).Standby? ==>
      |w.t| > old(|w.t|) + 1 && w.t[old(|w.t|) + 1].AskedPeer?
    ensures ReclonesAfterPrimary(w.t, old(|w.t|))
    ensures !ok ==> w.life.licence.NoLicence? && w.now > old(w.now) + 30000 && w.t[|w.t| - 1] == CheckFailed
    ensures old(w.data).Standby? ==> w.data.Standby?
  {
    w.Log(Checked(w.data), CheckBegun(w.cfg, w.life, w.data));
    if w.cfg.peerHost == "" || w.data.Standby? { return true; }
    ghost var before := w.t;
    ok := AskPeer(w);
    ReclonesCompose(before, w.t, old(|w.t|));
  }

  /** What startPostgres does before it starts anything. */
  method Prepare(w: World) returns (ok: bool)
    requires w.Valid() && w.life.up.None? && Resting(w.life)
    modifies w
    ensures w.Valid() && Rewind.Stopped(w)
    ensures ok ==> w.life.licence.AsIs? || (OnCheck(w.life) && !InCheck(w.life) && w.data.Standby?)
    ensures old(w.t) < w.t && w.t[old(|w.t|)] == BeginsWith(old(w.data))
    ensures !ok ==> w.life.licence.NoLicence?
    ensures !ok ==> w.t[|w.t| - 1] == CheckFailed || (old(w.data).Empty? && w.t[|w.t| - 1] == BootstrapEnded(false))
  {
    if w.data.Empty? {
      ok := Bootstrap.RunBootstrap(w);
      if !ok { return; }
    }
    ok := RejoinAtStartupIfNeeded(w);
  }

  /** The first event of a start. */
  function BeginsWith(data: PgData): Event { if data.Empty? then BootstrapBegan else Checked(data) }

  class Supervisor {
    const w: World
    const crashTimestamps: CrashWindow

    var currentChild: Option<nat>
    var postgresRunning: bool
    var restartPending: bool
    var restartAt: Option<int>
    var exitRequested: Option<int>
    var exited: Option<int>

    /** The shared flags agree with each other and with the journal. */
    ghost predicate Agrees()
      reads this, w
    {
      && w.Valid()
      && currentChild == w.life.up
      && postgresRunning == currentChild.Some?
      && restartPending == restartAt.Some? == w.life.armed
      && (restartPending ==> currentChild.None?)
      && Resting(w.life)
    }

    ghost predicate Valid()
      reads this, w, crashTimestamps, crashTimestamps.data
    {
      && Agrees()
      && !w.life.leaving
      && crashTimestamps.Valid()
      && crashTimestamps.window == w.cfg.restartWindow
      && (w.cfg.restartLimit > 0 ==> crashTimestamps.history == w.life.crashes)
    }

    constructor (w: World)
      requires w.Valid() && w.t == []
      ensures Valid() && exited.None?
      ensures this.w == w && fresh(crashTimestamps) && fresh(crashTimestamps.data)
    {
      this.w := w;
      var window := new CrashWindow(w.cfg.restartWindow);
      crashTimestamps := window;
      currentChild, postgresRunning := None, false;
      restartPending, restartAt := false, None;
      exitRequested, exited := None, None;
    }

    // ----------------------------------------------------------------- handover

    /** A child is killed only after ShutdownWait; a stop comes back without an error only for a child that is
        gone or was killed, and with one only when that kill failed. */
    twostate predicate KilledLate(cw: nat, ok: bool)
      reads this, w
    {
      var late := w.now >= old(w.now) + w.cfg.shutdownWait;
      && (w.killed == old(w.killed) || (w.killed == old(w.killed) + {cw} && late))
      && if ok then cw !in w.alive || cw in w.killed else cw in w.refused && late
    }

    /** stopLocal's two selects: wait, then kill and wait a little longer.  False only
        when the kill itself fails. */
    method AwaitOrKill(cw: nat) returns (ok: bool)
      requires w.Valid()
      modifies w`now, w`alive, w`killed, w`refused
      ensures w.Valid() && w.Elapsed(w.cfg.shutdownWait + 5000)
      ensures w.reliableKills ==> ok && cw !in w.alive
      ensures cw !in old(w.alive) ==> ok && w.now == old(w.now)
      ensures KilledLate(cw, ok)
    {
      var exited := w.AwaitExit(cw, w.cfg.shutdownWait);
      if exited { return true; }
      ok := w.KillChild(cw);
      if ok {
        exited := w.AwaitExit(cw, 5000);
      }
    }

    /** stopLocal: on success the child is no longer held, whatever happens next; it is killed
        only after ShutdownWait, and the stop fails only when that kill does. */
    method StopLocal(cw: nat) returns (ok: bool)
      requires Agrees()
      requires currentChild == Some(cw) || (w.life.leaving && currentChild.None?)
      modifies this`currentChild, this`postgresRunning, w
      ensures Agrees()
      ensures w.t == old(w.t) + [StopBegan(cw), if ok then Stopped(cw) else StopFailed(cw)]
      ensures w.life == if ok then old(w.life).(up := None, ended := ByStop) else old(w.life)
      ensures w.data == old(w.data) && w.nextPid == old(w.nextPid)
      ensures w.Elapsed(w.cfg.shutdownWait + 5000)
      ensures w.reliableKills ==> ok && w.alive == {}
      ensures cw !in old(w.alive) ==> ok && w.now == old(w.now)
      ensures KilledLate(cw, ok)
    {
      w.SignalChild(cw);
      ok := AwaitOrKill(cw);
      if ok {
        currentChild, postgresRunning := None, false;
        w.Log(Stopped(cw), w.life.(up := None, ended := ByStop));
      } else {
        w.Log(StopFailed(cw), w.life);
      }
    }

    /** What an outcome says about the child, for every handover: a refusal touches
        nothing, and success as well as a failed hand-over means the child is gone. */
    twostate predicate Outcomes(policy: Policy, out: Outcome)
      reads this, w
    {
      && w.data == old(w.data) && w.nextPid == old(w.nextPid) && w.alive <= old(w.alive) && old(w.t) <= w.t
      && w.life == old(w.life).(role := w.life.role, up := w.life.up, ended := w.life.ended)
      && (out.Refused? ==> policy.RequireSwitchover?)
      && (out.NotHandedOver? ==> policy.RequireSwitchover?)
      && (out.StopError? ==> !w.reliableKills)
      && (out.Refused? || out.StopError? ==> currentChild == old(currentChild) && w.life.ended == old(w.life).ended)
      && (out.Done? || out.NotHandedOver? ==> currentChild.None? && (w.reliableKills ==> w.alive == {}))
    }

    /** coordinateStandbyHandover: the peer must already be primary, unless the policy waives it. */
    method CoordinateStandbyHandover(cw: nat, policy: Policy) returns (out: Outcome)
      requires Agrees() && currentChild == Some(cw)
      modifies this`currentChild, this`postgresRunning, w
      ensures Agrees() && Outcomes(policy, out) && ByStandby(policy, w.t, old(|w.t|), cw, out)
      ensures w.Elapsed(w.cfg.shutdownWait + 7000) && (out.Refused? ==> w.Elapsed(2000))
      ensures w.life.role == old(w.life).role
    {
      var status := w.FetchPeerStatus();
      if status != Role(PrimaryRole) && policy.RequireSwitchover? {
        return Refused;
      }
      var stopped := StopLocal(cw);
      out := if stopped then Done else StopError;
    }

    /** The confirm poll: status queries up to the first that names the peer primary, and for at
        least ten seconds without one, plus the last one's overrun. */
    method ConfirmPeerPrimary() returns (ok: bool)
      requires w.Valid() && Resting(w.life)
      modifies w`now, w`alive, w`t, w`ls, w`life
      ensures w.Valid() && w.Elapsed(12500) && w.life == old(w.life) && old(w.t) <= w.t
      ensures Polled(w.t, old(|w.t|)) && (ok <==> w.t[|w.t| - 1] == Primary)
      ensures !ok ==> w.now >= old(w.now) + 10000 && |w.t| - old(|w.t|) >= 4
    {
      var deadline := w.now + 10000;
      while w.now < deadline
        invariant w.Valid() && w.life == old(w.life) && old(w.t) <= w.t && OnlyAsks(w.t, old(|w.t|))
        invariant forall i | old(|w.t|) <= i < |w.t| :: w.t[i] != Primary
        invariant old(w.now) <= w.now < deadline + 2500 && w.alive <= old(w.alive)
        invariant w.now <= old(w.now) + 2500 * (|w.t| - old(|w.t|))
        decreases deadline - w.now
      {
        var st := w.FetchPeerStatus();
        if st == Role(PrimaryRole) { return true; }
        w.Sleep(500);
      }
      return false;
    }

    /** Whether a failed confirmation took its ten seconds. */
    twostate predicate Waited(out: Outcome)
      reads this, w
    {
      out.NotHandedOver? && |w.t| > 0 && w.t[|w.t| - 1] != PromoteSent(false) ==> w.now >= old(w.now) + 10000
    }

    /** The part of coordinateHandover that follows the stop of a primary. */
    method HandOver(policy: Policy) returns (out: Outcome)
      requires Agrees() && MayAskToPromote(w.life)
      modifies w`now, w`alive, w`t, w`ls, w`life
      ensures Agrees() && w.Elapsed(82500) && w.life == old(w.life) && old(w.t) <= w.t
      ensures Promotion(policy, w.t, old(|w.t|), out) && Waited(out)
    {
      var asked := w.RequestPeerPromote();
      if !asked {
        return if policy.RequireSwitchover? then NotHandedOver else Done;
      }
      var confirmed := ConfirmPeerPrimary();
      out := if !confirmed && policy.RequireSwitchover? then NotHandedOver else Done;
    }

    /** The stop of a primary and what follows it. */
    method StopAndHandOver(cw: nat, policy: Policy) returns (out: Outcome)
      requires Agrees() && currentChild == Some(cw) && ActsAsPrimary(w.life)
      modifies this`currentChild, this`postgresRunning, w
      ensures Agrees() && Outcomes(policy, out) && !out.Refused? && Waited(out)
      ensures StopThenPromote(policy, w.t, old(|w.t|), cw, out)
      ensures w.life.role == old(w.life).role
      ensures w.Elapsed(w.cfg.shutdownWait + 87500)
    {
      var stopped := StopLocal(cw);
      if !stopped { return StopError; }
      ghost var before := w.t;
      out := HandOver(policy);
      assert before <= w.t;
    }

    /** coordinateHandover on a node that is not known to be a standby. */
    method CoordinatePrimaryHandover(cw: nat, policy: Policy) returns (out: Outcome)
      requires Agrees() && currentChild == Some(cw) && ActsAsPrimary(w.life)
      modifies this`currentChild, this`postgresRunning, w
      ensures Agrees() && Outcomes(policy, out) && ByPrimary(policy, w.t, old(|w.t|), cw, out) && Waited(out)
      ensures w.life.role == old(w.life).role
      ensures w.Elapsed(w.cfg.shutdownWait + 89500) && (out.Refused? ==> w.Elapsed(2000))
    {
      var status := w.FetchPeerStatus();
      if status != Role(StandbyRole) && policy.RequireSwitchover? {
        return Refused;
      }
      ghost var before := w.t;
      out := StopAndHandOver(cw, policy);
      assert before <= w.t;
    }

    /** coordinateHandover under any policy but force: the local role decides which way. */
    method CoordinateByRole(cw: nat, policy: Policy) returns (out: Outcome)
      requires Agrees() && currentChild == Some(cw) && !policy.Force?
      modifies this`currentChild, this`postgresRunning, w
      ensures Agrees() && Outcomes(policy, out) && Handover(policy, w.t, old(|w.t|), cw, out) && Waited(out)
      ensures w.Elapsed(w.cfg.shutdownWait + 92500) && (out.Refused? ==> w.Elapsed(5000))
    {
      var role := w.IsInRecovery();
      ghost var before := w.t;
      if role.InRecovery? {
        out := CoordinateStandbyHandover(cw, policy);
      } else {
        out := CoordinatePrimaryHandover(cw, policy);
      }
      assert before <= w.t;
    }

    /** coordinateHandover, for every policy and every answer. */
    method CoordinateHandover(cw: nat, policy: Policy) returns (out: Outcome)
      requires Agrees()
      requires currentChild == Some(cw) || (policy.Force? && w.life.leaving && currentChild.None?)
      modifies this`currentChild, this`postgresRunning, w
      ensures Agrees() && Outcomes(policy, out)
      ensures Handover(policy, w.t, old(|w.t|), cw, out) && Waited(out)
      ensures policy.RequireSwitchover? ==>
        (out.Done? <==> HandedOver(w.t, old(|w.t|), cw) || LeftToPrimary(w.t, old(|w.t|), cw))
      ensures w.Elapsed(w.cfg.shutdownWait + 92500) && (out.Refused? ==> w.Elapsed(5000))
      ensures policy.Force? ==> w.Elapsed(w.cfg.shutdownWait + 5000)
      ensures policy.Force? && cw !in old(w.alive) ==> out.Done? && w.now == old(w.now)
    {
      if policy.Force? {
        var ok := StopLocal(cw);
        return if ok then Done else StopError;
      }
      out := CoordinateByRole(cw, policy);
      if policy.RequireSwitchover? { SucceedsExactly(w.t, old(|w.t|), cw, out); }
    }

    /** coordinateReboot: never asks the peer to promote. */
    method CoordinateReboot(cw: nat) returns (out: Outcome)
      requires Agrees() && currentChild == Some(cw)
      modifies this`currentChild, this`postgresRunning, w
      ensures Agrees() && Outcomes(w.cfg.policy, out) && !out.NotHandedOver?
      ensures Reboot(w.cfg.policy, w.t, old(|w.t|), cw, out)
      ensures w.Elapsed(w.cfg.shutdownWait + 10000) && (out.Refused? ==> w.Elapsed(5000))
    {
      var role := w.IsInRecovery();
      ghost var before := w.t;
      if role.InRecovery? {
        out := CoordinateStandbyHandover(cw, w.cfg.policy);
        assert before <= w.t;
        return;
      }
      var noticed := w.NotifyPeerReboot();
      var ok := StopLocal(cw);
      out := if ok then Done else StopError;
      assert before <= w.t;
    }

    /** The reboot branch: the notice and the stop, or else a forced stop. */
    method StopForReboot(cw: nat) returns (ghost first: Outcome, ghost k: nat)
      requires Agrees() && currentChild == Some(cw) && w.life.leaving
      modifies this`currentChild, this`postgresRunning, w
      ensures w.Valid() && old(w.t) <= w.t && old(|w.t|) <= k <= |w.t|
      ensures Reboot(w.cfg.policy, w.t[..k], old(|w.t|), cw, first)
      ensures if first.Done? then k == |w.t| else Stop(w.t, k, cw, true) || Stop(w.t, k, cw, false)
      ensures w.reliableKills ==> w.alive == {} && w.Elapsed(w.cfg.shutdownWait + 92500)
    {
      var out := CoordinateReboot(cw);
      first, k := out, |w.t|;
      ghost var before := w.t;
      if !out.Done? {
        out := CoordinateHandover(cw, Force);
      }
      assert w.t[..k] == before;
    }

    /** The switchover branch: the handover the policy asks for, or else a forced stop. */
    method StopForGood(cw: nat) returns (ghost first: Outcome, ghost k: nat)
      requires Agrees() && currentChild == Some(cw) && w.life.leaving
      modifies this`currentChild, this`postgresRunning, w
      ensures w.Valid() && old(w.t) <= w.t && old(|w.t|) <= k <= |w.t|
      ensures Handover(w.cfg.policy, w.t[..k], old(|w.t|), cw, first)
      ensures if first.Done? then k == |w.t| else Stop(w.t, k, cw, true) || Stop(w.t, k, cw, false)
      ensures w.reliableKills ==> w.alive == {} && w.Elapsed(w.cfg.shutdownWait + 92500)
    {
      var out := CoordinateHandover(cw, w.cfg.policy);
      first, k := out, |w.t|;
      ghost var before := w.t;
      if !out.Done? {
        out := CoordinateHandover(cw, Force);
      }
      assert w.t[..k] == before;
    }

    /** One branch or the other, as PG_GUARD_SHUTDOWN_MODE says. */
    method StopForTermination(cw: nat) returns (ghost first: Outcome, ghost k: nat)
      requires Agrees() && currentChild == Some(cw) && w.life.leaving
      modifies this`currentChild, this`postgresRunning, w
      ensures w.Valid() && old(w.t) <= w.t && StoppedFor(w.cfg, w.t, old(|w.t|), k, cw, first)
      ensures w.reliableKills ==> w.alive == {} && w.Elapsed(w.cfg.shutdownWait + 92500)
    {
      if w.cfg.mode.RebootMode? {
        first, k := StopForReboot(cw);
      } else {
        first, k := StopForGood(cw);
      }
    }

    function TerminationCode(): int
      reads this
    {
      if w.cfg.mode.RebootMode? && currentChild.Some? then 78 else 0
    }

    /** handleTerminationSignal: for every policy, mode and peer it ends, and with
        reliable kills it ends with the child stopped and within ShutdownWait + 92.5s. */
    method HandleTerminationSignal() returns (code: int, ghost first: Outcome, ghost k: nat)
      requires Valid()
      modifies this`currentChild, this`postgresRunning, w
      ensures w.Valid() && currentChild.None? && !postgresRunning
      ensures w.reliableKills ==> w.alive == {} && w.Elapsed(w.cfg.shutdownWait + 92500)
      ensures code == old(TerminationCode())
      ensures old(currentChild).None? ==> w.t == old(w.t)
      ensures old(currentChild).Some? ==>
        old(w.t) <= w.t && Terminated(w.cfg, w.t, old(|w.t|), k, old(currentChild).value, first)
    {
      first, k, code := Done, 0, TerminationCode();
      if currentChild.None? { return; }
      var cw := currentChild.value;
      w.Log(Leaving, w.life.(leaving := true));
      ghost var before := w.t;
      first, k := StopForTermination(cw);
      assert before <= w.t;
      currentChild, postgresRunning := None, false;
    }

    // ------------------------------------------------------------ start and crash

    /** startPostgres: leaves postgres stopped when bootstrap or the rejoin check
        fails, and ends the process when the binary cannot be started. */
    method StartPostgres()
      requires Valid() && currentChild.None? && !restartPending && exited.None?
      modifies this`currentChild, this`postgresRunning, this`exited, w
      ensures exited.None? ==> Valid()
      ensures w.Valid() && old(w.t) < w.t && w.t[old(|w.t|)] == BeginsWith(old(w.data))
      ensures currentChild.Some? ==> exited.None?
      ensures currentChild.Some? ==> w.t[|w.t| - 1] == Started(currentChild.value, w.data)
      ensures exited.Some? ==> exited == Some(1) && w.t[|w.t| - 1] == NotStarted
      ensures currentChild.None? && exited.None? ==>
        w.t[|w.t| - 1] == CheckFailed || (old(w.data).Empty? && w.t[|w.t| - 1] == BootstrapEnded(false))
    {
      var ok := Prepare(w);
      if !ok { return; }
      var child := w.StartChild();
      if child.None? {
        exited := Some(1);
        return;
      }
      currentChild, postgresRunning := child, true;
    }

    /** The restart budget, asked only when crash restarts are enabled. */
    method MayRestart() returns (again: bool)
      requires crashTimestamps.Valid() && crashTimestamps.window == w.cfg.restartWindow
      requires w.Valid() && (w.cfg.restartLimit > 0 ==> crashTimestamps.history == w.life.crashes)
      modifies crashTimestamps, crashTimestamps.data
      ensures again == WithinBudget(w.cfg, w.life.crashes, w.now)
      ensures crashTimestamps.Valid()
      ensures w.cfg.restartLimit > 0 ==> crashTimestamps.history == w.life.crashes + [w.now]
      ensures crashTimestamps.data == old(crashTimestamps.data) || fresh(crashTimestamps.data)
    {
      again := false;
      if w.cfg.restartLimit > 0 {
        again := crashTimestamps.RecordCrashAndCheckLimit(w.now, w.cfg.restartLimit);
      }
    }

    ghost method NoteCrash(pid: nat, again: bool)
      requires w.Valid() && w.life.up == Some(pid) && !w.life.leaving && pid !in w.alive
      requires again == WithinBudget(w.cfg, w.life.crashes, w.now)
      modifies w`t, w`ls, w`life
      ensures w.Valid() && w.t == old(w.t) + [Crashed(pid, w.now, again)]
      ensures w.life ==
        old(w.life).(up := None, armed := again, ended := ByCrash, crashes := old(w.life).crashes + [w.now])
    {
      w.Log(Crashed(pid, w.now, again),
        w.life.(up := None, armed := again, ended := ByCrash, crashes := w.life.crashes + [w.now]));
    }

    /** The childDone case: an exit nobody asked for either arms a restart or ends the process. */
    method HandleChildExit(code: int)
      requires Valid() && exited.None?
      requires currentChild.Some? && currentChild.value !in w.alive
      modifies this`currentChild, this`postgresRunning, this`restartPending, this`restartAt, this`exited, w
      modifies crashTimestamps, crashTimestamps.data
      ensures Valid()
      ensures exited == if WithinBudget(w.cfg, old(w.life).crashes, old(w.now)) then None else Some(code)
      ensures exited.None? ==> restartAt == Some(w.now + w.cfg.restartBackoff)
      ensures w.t == old(w.t) + [Crashed(old(currentChild).value, old(w.now), exited.None?)]
      ensures crashTimestamps.data == old(crashTimestamps.data) || fresh(crashTimestamps.data)
    {
      ghost var pid := currentChild.value;
      currentChild, postgresRunning := None, false;
      var again := MayRestart();
      NoteCrash(pid, again);
      if !again {
        exited := Some(code);
        return;
      }
      restartPending := true;
      restartAt := Some(w.now + w.cfg.restartBackoff);
    }

    /** The restartAt case; the "already running" guard at its top is dead. */
    method HandleRestartDue()
      requires Valid() && exited.None? && restartAt.Some?
      modifies this`currentChild, this`postgresRunning, this`restartPending, this`restartAt, this`exited, w
      ensures w.Valid()
      ensures old(w.t) + [RestartDue, BeginsWith(old(w.data))] <= w.t
      ensures exited.None? ==> Valid() && currentChild.Some? && !restartPending
      ensures exited.None? ==> w.t[|w.t| - 1] == Started(currentChild.value, w.data)
      ensures exited.Some? ==> exited == Some(1) && !w.t[|w.t| - 1].Started?
    {
      restartAt := None;
      restartPending := false;
      w.Log(RestartDue, w.life.(armed := false));
      if currentChild.Some? {
        assert false;
        return;
      }
      ghost var before := w.t;
      StartPostgres();
      assert before <= w.t;
      if currentChild.None? && exited.None? {
        exited := Some(1);
      }
    }

    // ------------------------------------------------------------------ the loop

    /** The rejoin request: re-clone, then start whatever the peer says. */
    method ServeRejoin() returns (ok: bool)
      requires Valid() && exited.None?
      modifies this`currentChild, this`postgresRunning, w
      ensures Valid()
      ensures restartPending || old(currentChild).Some? ==> !ok && w.t == old(w.t) && currentChild == old(currentChild)
      ensures !restartPending && old(currentChild).None? ==>
        && old(w.t) < w.t && Rewinds(w.t[old(|w.t|)])
        && (ok <==> currentChild.Some?)
        && w.t[|w.t| - 1] == (if ok then Started(currentChild.value, w.data) else w.t[|w.t| - 1])
        && (!ok ==> w.t[|w.t| - 1] == Rejoined(false) || w.t[|w.t| - 1] == NotStarted)
      ensures ok ==> w.data.Standby?
    {
      if restartPending || currentChild.Some? { return false; }
      ok := Rewind.RejoinAsStandby(w);
      if !ok { return; }
      var child := w.StartChild();
      if child.None? { return false; }
      currentChild, postgresRunning := child, true;
    }

    /** handleHandoverRequest: nil exactly when the requested stop or start took place. */
    method HandleHandoverRequest(kind: Request) returns (ok: bool, ghost out: Outcome)
      requires Valid() && exited.None?
      modifies this`currentChild, this`postgresRunning, this`exited, w
      ensures w.Valid() && old(w.t) <= w.t
      ensures exited.None? ==> Valid()
      ensures exited.Some? ==> kind.StartReq? && exited == Some(1)
      ensures old(currentChild).None? && (HandsOver(kind) || kind.RebootReq?) ==> !ok && w.t == old(w.t)
      ensures old(currentChild).Some? && HandsOver(kind) ==>
        Handover(w.cfg.policy, w.t, old(|w.t|), old(currentChild).value, out) && (ok <==> out.Done?)
      ensures old(currentChild).Some? && HandsOver(kind) && w.cfg.policy.RequireSwitchover? ==>
        (ok <==> HandedOver(w.t, old(|w.t|), old(currentChild).value)
                 || LeftToPrimary(w.t, old(|w.t|), old(currentChild).value))
      ensures old(currentChild).Some? && HandsOver(kind) && !w.cfg.policy.RequireSwitchover? && w.reliableKills ==> ok
      ensures old(currentChild).Some? && kind.RebootReq? ==>
        Reboot(w.cfg.policy, w.t, old(|w.t|), old(currentChild).value, out) && (ok <==> out.Done?)
      ensures HandsOver(kind) || kind.RebootReq? ==> (ok ==> currentChild.None?)
      ensures (kind.RejoinReq? || kind.StartReq?) && (restartPending || old(currentChild).Some?) ==>
        !ok && w.t == old(w.t) && currentChild == old(currentChild)
      ensures (kind.RejoinReq? || kind.StartReq?) && !restartPending && old(currentChild).None? ==>
        && |w.t| > old(|w.t|) && (ok <==> currentChild.Some?) && (ok <==> w.t[|w.t| - 1].Started?)
        && if kind.StartReq? then w.t[old(|w.t|)] == BeginsWith(old(w.data)) else Rewinds(w.t[old(|w.t|)])
      ensures kind.RejoinReq? && ok ==> w.data.Standby?
    {
      out := Done;
      match kind
      case ShutdownReq | SwitchoverReq | MaintenanceReq =>
        if currentChild.None? { return false, out; }
        var o := CoordinateHandover(currentChild.value, w.cfg.policy);
        ok, out := o.Done?, o;
      case RebootReq =>
        if currentChild.None? { return false, out; }
        var o := CoordinateReboot(currentChild.value);
        ok, out := o.Done?, o;
      case RejoinReq =>
        ok := ServeRejoin();
      case StartReq =>
        if restartPending || currentChild.Some? { return false, out; }
        StartPostgres();
        ok := currentChild.Some?;
    }

    /** What an arrival does to the process itself. */
    twostate predicate Handled(a: Arrival)
      reads this, w
    {
      match a
      case Nothing => w.t == old(w.t) && exited.None? && exitRequested == old(exitRequested)
      case Signal(code) => exited == Some(code) && code == old(TerminationCode())
      case ChildExit(code) =>
        && exited == (if WithinBudget(w.cfg, old(w.life).crashes, old(w.now)) then None else Some(code))
        && exitRequested == old(exitRequested)
      case RestartTimer => (exited.None? || exited == Some(1)) && exitRequested == old(exitRequested)
      case Served(kind, ok) =>
        && (exited.Some? ==> kind.StartReq? && exited == Some(1))
        && exitRequested == (if ok && ExitCode(kind).Some? then ExitCode(kind) else old(exitRequested))
        && (ok && ExitCode(kind).Some? ==> currentChild.None?)
      case ExitRequest => exited == old(exitRequested) && exited.Some? && w.t == old(w.t)
    }

    /** A request's handler: it asks for the process to end once the main loop has answered nil. */
    method Serve(kind: Request) returns (ok: bool)
      requires Valid() && exited.None?
      modifies this`currentChild, this`postgresRunning, this`exited, this`exitRequested, w
      ensures w.Valid() && old(w.t) <= w.t
      ensures exited.None? ==> Valid()
      ensures Handled(Served(kind, ok))
    {
      ghost var out;
      ok, out := HandleHandoverRequest(kind);
      if ok {
        match kind
        case ShutdownReq => exitRequested := Some(0);
        case SwitchoverReq | RebootReq => exitRequested := Some(78);
        case _ =>
      }
    }

    /** One arrival in the select of the main loop, chosen among everything enabled. */
    method Select() returns (a: Arrival)
      requires Valid() && exited.None?
      modifies this, w, crashTimestamps, crashTimestamps.data
      ensures w.Valid() && old(w.t) <= w.t
      ensures exited.None? ==> Valid()
      ensures Handled(a)
      ensures crashTimestamps.data == old(crashTimestamps.data) || fresh(crashTimestamps.data)
    {
      if
      case true =>
        var waited :| waited >= 0;
        w.Elapse(waited);
        a := Nothing;
      case true =>
        ghost var first, k;
        var code;
        code, first, k := HandleTerminationSignal();
        exited := Some(code);
        a := Signal(code);
      case currentChild.Some? && currentChild.value !in w.alive =>
        var code: int := *;
        HandleChildExit(code);
        a := ChildExit(code);
      case restartAt.Some? && restartAt.value <= w.now =>
        HandleRestartDue();
        a := RestartTimer;
      case true =>
        var kind: Request := *;
        var ok := Serve(kind);
        a := Served(kind, ok);
      case exitRequested.Some? =>
        exited := exitRequested;
        a := ExitRequest;
    }

    /** runInteractive from startup on, over any sequence of arrivals of any length:
        the journal stays accepted, the flags agree, and with reliable kills the
        operating system never runs a child other than the one held. */
    method Run(arrivals: nat)
      requires Valid() && w.t == [] && currentChild.None? && !restartPending && exited.None?
      modifies this, w, crashTimestamps, crashTimestamps.data
      ensures w.Valid() && w.t != [] && w.t[0] == BeginsWith(old(w.data))
      ensures exited.None? ==> Valid()
    {
      StartPostgres();
      var i := 0;
      while i < arrivals && exited.None?
        invariant w.Valid() && w.t != [] && w.t[0] == BeginsWith(old(w.data))
        invariant exited.None? ==> Valid()
        invariant crashTimestamps.data == old(crashTimestamps.data) || fresh(crashTimestamps.data)
      {
        var a := Select();
        i := i + 1;
      }
    }
  }
}
