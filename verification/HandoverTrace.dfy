/** What one coordinated stop journals, for every policy and every answer, and what its outcome says. */
module HandoverTrace {
  import opened Types
  import opened Journal

  /** How coordinateHandover and coordinateReboot come back: nil, a refusal before
      anything was stopped, a failed stop, or a stop whose hand-over did not complete. */
  datatype Outcome = Done | Refused | StopError | NotHandedOver

  const Primary := AskedPeer(Role(PrimaryRole))

  /** Every event since `from` is a status query. */
  ghost predicate OnlyAsks(t: seq<Event>, from: nat) {
    forall i | from <= i < |t| :: t[i].AskedPeer?
  }

  ghost predicate NoPromote(t: seq<Event>, from: nat) {
    forall i | from <= i < |t| :: !t[i].PromoteSent?
  }

  ghost predicate NoNotice(t: seq<Event>, from: nat) {
    forall i | from <= i < |t| :: !t[i].NoticeSent?
  }

  // ------------------------------------------------- the events, from `n` to the end

  ghost predicate Stop(t: seq<Event>, n: nat, cw: nat, ok: bool) {
    n + 2 == |t| && t[n] == StopBegan(cw) && t[n + 1] == if ok then Stopped(cw) else StopFailed(cw)
  }

  ghost predicate StopOnly(t: seq<Event>, n: nat, cw: nat, out: Outcome) {
    (out.Done? || out.StopError?) && Stop(t, n, cw, out.Done?)
  }

  /** A poll that ends with the first answer naming the peer primary. */
  ghost predicate Polled(t: seq<Event>, n: nat) {
    n < |t| && OnlyAsks(t, n) && forall i :: n <= i < |t| - 1 ==> t[i] != Primary
  }

  function Failing(policy: Policy): Outcome { if policy.RequireSwitchover? then NotHandedOver else Done }

  /** The promote request and, if the peer accepted it, the poll that confirms it. */
  ghost predicate Promotion(policy: Policy, t: seq<Event>, n: nat, out: Outcome) {
    && n < |t| && t[n].PromoteSent?
    && if t[n].ok then Polled(t, n + 1) && out == if t[|t| - 1] == Primary then Done else Failing(policy)
       else n + 1 == |t| && out == Failing(policy)
  }

  /** The stop of a primary, and the promotion only after it. */
  ghost predicate StopThenPromote(policy: Policy, t: seq<Event>, n: nat, cw: nat, out: Outcome) {
    && n + 1 < |t| && t[n] == StopBegan(cw)
    && if t[n + 1] == Stopped(cw) then Promotion(policy, t, n + 2, out)
       else n + 2 == |t| && t[n + 1] == StopFailed(cw) && out.StopError?
  }

  /** A primary asks for a standby, then stops, then hands over. */
  ghost predicate ByPrimary(policy: Policy, t: seq<Event>, n: nat, cw: nat, out: Outcome) {
    && n < |t| && t[n].AskedPeer?
    && if policy.RequireSwitchover? && t[n].answer != Role(StandbyRole) then n + 1 == |t| && out.Refused?
       else StopThenPromote(policy, t, n + 1, cw, out)
  }

  /** A standby asks for a primary and then stops. */
  ghost predicate ByStandby(policy: Policy, t: seq<Event>, n: nat, cw: nat, out: Outcome) {
    && n < |t| && t[n].AskedPeer?
    && if policy.RequireSwitchover? && t[n].answer != Role(PrimaryRole) then n + 1 == |t| && out.Refused?
       else StopOnly(t, n + 1, cw, out)
  }

  /** coordinateHandover. */
  ghost predicate Handover(policy: Policy, t: seq<Event>, n: nat, cw: nat, out: Outcome) {
    if policy.Force? then StopOnly(t, n, cw, out)
    else
      && n < |t| && t[n].AskedRole?
      && if t[n].recovery.InRecovery? then ByStandby(policy, t, n + 1, cw, out)
         else ByPrimary(policy, t, n + 1, cw, out)
  }

  /** coordinateReboot. */
  ghost predicate Reboot(policy: Policy, t: seq<Event>, n: nat, cw: nat, out: Outcome) {
    && n + 1 < |t| && t[n].AskedRole?
    && if t[n].recovery.InRecovery? then ByStandby(policy, t, n + 1, cw, out)
       else t[n + 1].NoticeSent? && StopOnly(t, n + 2, cw, out)
  }

  // ------------------------------------------------------------- what they mean

  /** The successful handover of a primary: the peer was a standby before the stop,
      was asked to promote after it, and was then seen primary. */
  ghost predicate HandedOver(t: seq<Event>, n: nat, cw: nat) {
    && n + 5 < |t|
    && t[n].AskedRole? && !t[n].recovery.InRecovery?
    && t[n + 1] == AskedPeer(Role(StandbyRole)) && t[n + 2] == StopBegan(cw) && t[n + 3] == Stopped(cw)
    && t[n + 4] == PromoteSent(true)
    && OnlyAsks(t, n + 5)
    && t[|t| - 1] == Primary
  }

  /** The successful stop of a standby: the peer was seen primary just before it. */
  ghost predicate LeftToPrimary(t: seq<Event>, n: nat, cw: nat) {
    && n + 4 == |t|
    && t[n] == AskedRole(InRecovery) && t[n + 1] == Primary
    && t[n + 2] == StopBegan(cw) && t[n + 3] == Stopped(cw)
  }

  /** A primary stopped by a handover has asked its peer to promote, after the stop. */
  ghost predicate AskedToPromote(t: seq<Event>, n: nat, cw: nat) {
    && n + 4 <= |t|
    && t[n].AskedPeer? && t[n + 1] == StopBegan(cw) && t[n + 2] == Stopped(cw) && t[n + 3].PromoteSent?
    && OnlyAsks(t, n + 4)
  }

  /** Under require-switchover a handover succeeds if and only if the peer has taken over: it was seen
      primary after the stop of a primary, or just before the stop of a standby. */
  lemma SucceedsExactly(t: seq<Event>, n: nat, cw: nat, out: Outcome)
    requires Handover(RequireSwitchover, t, n, cw, out)
    ensures out.Done? <==> HandedOver(t, n, cw) || LeftToPrimary(t, n, cw)
  {
  }

  /** Under the other policies it succeeds if and only if the child was stopped. */
  lemma OthersSucceedOnStop(policy: Policy, t: seq<Event>, n: nat, cw: nat, out: Outcome)
    requires Handover(policy, t, n, cw, out) && !policy.RequireSwitchover?
    ensures out.Done? || out.StopError?
    ensures out.Done? <==> exists i :: n < i < |t| && t[i] == Stopped(cw)
  {
    if out.Done? {
      var i := if policy.Force? then n + 1 else n + 3;
      assert t[i] == Stopped(cw);
    }
  }

  /** Each way to fail shows in the journal. */
  lemma FailuresShow(policy: Policy, t: seq<Event>, n: nat, cw: nat, out: Outcome)
    requires Handover(policy, t, n, cw, out)
    ensures out.Refused? <==> |t| == n + 2 && t[n].AskedRole? && t[n + 1].AskedPeer?
    ensures out.Refused? ==> t[n + 1] != AskedPeer(Role(if t[n].recovery.InRecovery? then PrimaryRole else StandbyRole))
    ensures out.StopError? <==> t[|t| - 1] == StopFailed(cw)
    ensures out.NotHandedOver? ==>
      && policy.RequireSwitchover? && n + 4 < |t| && t[n + 3] == Stopped(cw)
      && (t[|t| - 1] == PromoteSent(false)
          || (t[n + 4] == PromoteSent(true) && forall i :: n + 4 < i < |t| ==> t[i] != Primary))
  {
  }

  /** Who is contacted, and when. */
  lemma ContactsExactly(policy: Policy, t: seq<Event>, n: nat, cw: nat, out: Outcome)
    requires Handover(policy, t, n, cw, out)
    ensures NoNotice(t, n)
    ensures policy.Force? ==> NoPromote(t, n) && forall i | n <= i < |t| :: !t[i].AskedPeer? && !t[i].AskedRole?
    ensures !policy.Force? && t[n].recovery.InRecovery? ==> NoPromote(t, n)
    ensures !policy.Force? && !t[n].recovery.InRecovery? && (out.Done? || out.NotHandedOver?) ==>
      AskedToPromote(t, n + 1, cw)
    ensures forall i | n <= i < |t| && t[i].PromoteSent? :: i == n + 4 && t[n + 3] == Stopped(cw)
  {
  }

  /** A reboot never asks for a promotion; a primary gives its notice before its stop, and a standby under
      require-switchover stops only beside a primary. */
  lemma RebootExactly(policy: Policy, t: seq<Event>, n: nat, cw: nat, out: Outcome)
    requires Reboot(policy, t, n, cw, out)
    ensures NoPromote(t, n) && !out.NotHandedOver?
    ensures !t[n].recovery.InRecovery? ==>
      |t| == n + 4 && t[n + 1].NoticeSent? && t[n + 2] == StopBegan(cw) && (out.Done? <==> t[n + 3] == Stopped(cw))
    ensures t[n].recovery.InRecovery? ==> NoNotice(t, n)
    ensures t[n].recovery.InRecovery? && policy.RequireSwitchover? ==> (out.Done? <==> LeftToPrimary(t, n, cw))
    ensures out.StopError? <==> t[|t| - 1] == StopFailed(cw)
  {
  }

  /** A termination: the first attempt up to `k`, and a forced stop after it exactly when it failed. */
  ghost predicate StoppedFor(cfg: Config, t: seq<Event>, n: nat, k: nat, cw: nat, first: Outcome) {
    && n <= k <= |t|
    && (if cfg.mode.RebootMode? then Reboot(cfg.policy, t[..k], n, cw, first)
        else Handover(cfg.policy, t[..k], n, cw, first))
    && (if first.Done? then k == |t| else Stop(t, k, cw, true) || Stop(t, k, cw, false))
  }

  ghost predicate Terminated(cfg: Config, t: seq<Event>, n: nat, k: nat, cw: nat, first: Outcome) {
    n < |t| && t[n] == Leaving && StoppedFor(cfg, t, n + 1, k, cw, first)
  }

  /** In switchover mode a terminating primary gives no notice, and has asked its peer to promote unless the
      first attempt was refused or could not stop the child. */
  lemma SwitchoverTermination(cfg: Config, t: seq<Event>, n: nat, k: nat, cw: nat, first: Outcome)
    requires Terminated(cfg, t, n, k, cw, first) && cfg.mode.SwitchoverMode?
    ensures NoNotice(t, n)
    ensures cfg.policy.Force? ==> NoPromote(t, n) && forall i | n < i < |t| :: !t[i].AskedPeer? && !t[i].AskedRole?
    ensures !cfg.policy.Force? ==> k > n + 1 && t[n + 1].AskedRole?
    ensures !cfg.policy.Force? && !t[n + 1].recovery.InRecovery? ==>
      || AskedToPromote(t[..k], n + 2, cw)
      || (first.Refused? && k == n + 3 && t[n + 2].AskedPeer? && t[n + 2] != AskedPeer(Role(StandbyRole)))
      || (first.StopError? && t[k - 1] == StopFailed(cw))
  {
    var u := t[..k];
    ContactsExactly(cfg.policy, u, n + 1, cw, first);
    FailuresShow(cfg.policy, u, n + 1, cw, first);
    assert forall i | 0 <= i < k :: t[i] == u[i];
  }

  /** In reboot mode a terminating primary gives its notice before the stop, and no promotion is asked for. */
  lemma RebootTermination(cfg: Config, t: seq<Event>, n: nat, k: nat, cw: nat, first: Outcome)
    requires Terminated(cfg, t, n, k, cw, first) && cfg.mode.RebootMode?
    ensures NoPromote(t, n) && k > n + 2 && t[n + 1].AskedRole?
    ensures !t[n + 1].recovery.InRecovery? ==> t[n + 2].NoticeSent? && k > n + 3 && t[n + 3] == StopBegan(cw)
  {
    var u := t[..k];
    RebootExactly(cfg.policy, u, n + 1, cw, first);
    assert forall i | 0 <= i < k :: t[i] == u[i];
  }
}
