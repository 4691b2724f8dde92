/** The process-lifetime reaper: one lock, a waiter map keyed by pid, coalesced
    SIGCHLD tokens and a drain loop, against a kernel that lets children exit at any
    moment and hands out the pids of collected ones again. */
module Reaper {
  import opened Types

  /** A child of this process as the kernel sees it; `uid` tells apart the processes that share a pid over time. */
  datatype Proc = Live(uid: nat) | Zombie(uid: nat, code: int)

  /** Who holds the reaper's mutex, and how far it has got. */
  datatype Lock =
    | Free
    | Draining                                          // reap(), before a Wait4
    | Collected(pid: int, uid: nat, code: int)          // reap(), between Wait4 and the waiter lookup
    | Spawning                                          // trackChild, before cmd.Start
    | Spawned(pid: int, uid: nat)                       // trackChild, between cmd.Start and the registration

  /** `signal` is a SIGCHLD not yet turned into a channel token, `token` the one the
      channel can hold, `awake` a reaper goroutine that has not made its final empty
      Wait4.  A channel is named by the child it was made for; `sent` is everything
      ever sent on it, `buf` what is still in it. */
  datatype State = State(
    procs: map<int, Proc>, next: nat,
    signal: bool, token: bool, awake: bool, lock: Lock,
    waiters: map<int, nat>, buf: map<nat, seq<int>>, sent: map<nat, seq<int>>,
    pids: map<nat, int>, codes: map<nat, int>, dropped: bool)

  /** startReaper: the goroutine begins with a drain of its own. */
  const Start := State(map[], 0, false, false, true, Free, map[], map[], map[], map[], map[], false)

  datatype Op =
    | Exits(pid: int, code: int)    // a child dies and SIGCHLD is raised
    | Adopts(pid: int)              // an untracked child: an orphan, or one that runBackupPipe started
    | Steals(pid: int)              // runBackupPipe waits for a child of its own
    | Signals                       // signal.Notify's non-blocking send
    | Receives(uid: nat)            // a caller of trackChild takes its exit code
    | Wakes                         // the range over the signal channel yields
    | BeginsReap | Waits(pid: int) | Delivers | FindsNone
    | BeginsTrack | StartFails | Starts(pid: int) | Registers

  predicate HasZombie(s: State) { exists p | p in s.procs :: s.procs[p].Zombie? }

  predicate Enabled(s: State, op: Op) {
    match op
    case Exits(pid, _) => pid in s.procs && s.procs[pid].Live?
    case Adopts(pid) => pid !in s.procs
    case Steals(pid) => pid in s.procs && s.procs[pid].Zombie? && s.procs[pid].uid !in s.sent
    case Signals => s.signal
    case Receives(uid) => uid in s.buf && s.buf[uid] != []
    case Wakes => s.token && !s.awake
    case BeginsReap => s.awake && s.lock.Free?
    case Waits(pid) => s.lock.Draining? && pid in s.procs && s.procs[pid].Zombie?
    case Delivers => s.lock.Collected?
    case FindsNone => s.lock.Draining? && !HasZombie(s)
    case BeginsTrack => s.lock.Free?
    case StartFails => s.lock.Spawning?
    case Starts(pid) => s.lock.Spawning? && pid !in s.procs
    case Registers => s.lock.Spawned?
  }

  /** The waiter lookup and the non-blocking send of reap. */
  function Deliver(s: State, pid: int, code: int): State {
    if pid !in s.waiters then s
    else
      var ch := s.waiters[pid];
      var s' := s.(waiters := s.waiters - {pid});
      if ch in s.buf && ch in s.sent && s.buf[ch] == []
      then s'.(buf := s.buf[ch := [code]], sent := s.sent[ch := s.sent[ch] + [code]])
      else s'.(dropped := true)
  }

  function Apply(s: State, op: Op): State
    requires Enabled(s, op)
  {
    match op
    case Exits(pid, code) =>
      var uid := s.procs[pid].uid;
      s.(procs := s.procs[pid := Zombie(uid, code)], codes := s.codes[uid := code], signal := true)
    case Adopts(pid) => s.(procs := s.procs[pid := Live(s.next)], next := s.next + 1, pids := s.pids[s.next := pid])
    case Steals(pid) => s.(procs := s.procs - {pid})
    case Signals => s.(signal := false, token := true)
    case Receives(uid) => s.(buf := s.buf[uid := []])
    case Wakes => s.(token := false, awake := true)
    case BeginsReap => s.(lock := Draining)
    case Waits(pid) => s.(procs := s.procs - {pid}, lock := Collected(pid, s.procs[pid].uid, s.procs[pid].code))
    case Delivers => Deliver(s, s.lock.pid, s.lock.code).(lock := Draining)
    case FindsNone => s.(lock := Free, awake := false)
    case BeginsTrack => s.(lock := Spawning)
    case StartFails => s.(lock := Free)
    case Starts(pid) =>
      s.(procs := s.procs[pid := Live(s.next)], next := s.next + 1, lock := Spawned(pid, s.next),
         buf := s.buf[s.next := []], sent := s.sent[s.next := []], pids := s.pids[s.next := pid])
    case Registers => s.(waiters := s.waiters[s.lock.pid := s.lock.uid], lock := Free)
  }

  /** An interleaving from startReaper on: `ss[i]` is the state before `ops[i]`. */
  ghost predicate Run(ops: seq<Op>, ss: seq<State>) {
    && |ss| == |ops| + 1 && ss[0] == Start
    && forall i :: 0 <= i < |ops| ==> Step(ops, ss, i)
  }

  ghost predicate Step(ops: seq<Op>, ss: seq<State>, i: nat)
    requires i < |ops| && |ss| == |ops| + 1
  {
    Enabled(ss[i], ops[i]) && ss[i + 1] == Apply(ss[i], ops[i])
  }

  // ---------------------------------------------------------------- the invariant

  predicate IsCollected(s: State, pid: int, uid: nat) {
    s.lock.Collected? && s.lock.pid == pid && s.lock.uid == uid
  }

  /** Pids of present processes are recorded under their own uid, so no uid is present twice. */
  ghost predicate Kernel(s: State) {
    && (forall p | p in s.procs :: Recorded(s, p))
    && (forall u | u in s.pids :: u < s.next)
  }

  predicate Recorded(s: State, p: int)
    requires p in s.procs
  {
    var u := s.procs[p].uid;
    && u in s.pids && s.pids[u] == p
    && (s.procs[p].Zombie? ==> u in s.codes && s.codes[u] == s.procs[p].code)
  }

  /** A waiter always belongs to the process that has its pid now, or to the one just collected. */
  ghost predicate NoStaleWaiter(s: State) {
    forall p | p in s.waiters :: Awaited(s, p)
  }

  predicate Awaited(s: State, p: int)
    requires p in s.waiters
  {
    && s.waiters[p] in s.sent && s.sent[s.waiters[p]] == []
    && if s.lock.Collected? && s.lock.pid == p then s.lock.uid == s.waiters[p]
       else p in s.procs && s.procs[p].uid == s.waiters[p]
  }

  /** A tracked child that can be collected has its waiter, or is about to get it under the lock. */
  ghost predicate NoMissingWaiter(s: State) {
    && (forall p | p in s.procs && s.procs[p].uid in s.sent ::
          (p in s.waiters && s.waiters[p] == s.procs[p].uid) || s.lock == Spawned(p, s.procs[p].uid))
    && (s.lock.Spawned? ==>
          && s.lock.pid in s.procs && s.procs[s.lock.pid].uid == s.lock.uid
          && s.lock.uid in s.sent && s.lock.pid !in s.waiters)
    && (s.lock.Collected? ==>
          && s.lock.uid in s.pids && s.pids[s.lock.uid] == s.lock.pid
          && !InTable(s, s.lock.uid)
          && s.lock.uid in s.codes && s.codes[s.lock.uid] == s.lock.code
          && (s.lock.uid in s.sent ==> s.lock.pid in s.waiters && s.waiters[s.lock.pid] == s.lock.uid))
  }

  predicate InTable(s: State, u: nat)
    requires u in s.pids
  {
    s.pids[u] in s.procs && s.procs[s.pids[u]].uid == u
  }

  /** Every tracked child: nothing sent while it is still to be collected, and afterwards
      its own exit code and nothing else. */
  ghost predicate Channels(s: State) {
    && s.sent.Keys == s.buf.Keys
    && (forall u | u in s.sent :: u in s.pids && ChannelOk(s, u))
  }

  predicate ChannelOk(s: State, u: nat)
    requires u in s.pids && u in s.sent && s.sent.Keys == s.buf.Keys
  {
    if InTable(s, u) || IsCollected(s, s.pids[u], u) then s.sent[u] == [] && s.buf[u] == []
    else u in s.codes && s.sent[u] == [s.codes[u]]
  }

  ghost predicate NoLostWakeup(s: State) {
    && (HasZombie(s) ==> s.signal || s.token || s.awake)
    && (s.lock.Draining? || s.lock.Collected? ==> s.awake)
  }

  ghost predicate Inv(s: State) {
    && Kernel(s) && NoStaleWaiter(s) && NoMissingWaiter(s) && Channels(s) && NoLostWakeup(s)
    && !s.dropped
  }

  // Each step keeps the invariant.

  lemma ExitsKeepsInv(s: State, pid: int, code: int)
    requires Inv(s) && Enabled(s, Exits(pid, code))
    ensures Inv(Apply(s, Exits(pid, code)))
  {
  }

  lemma AdoptsKeepsWaiters(s: State, pid: int)
    requires Inv(s) && Enabled(s, Adopts(pid))
    ensures var after := Apply(s, Adopts(pid));
      Kernel(after) && NoStaleWaiter(after) && NoMissingWaiter(after) && NoLostWakeup(after) && !after.dropped
  {
  }

  lemma AdoptsKeepsChannels(s: State, pid: int)
    requires Inv(s) && Enabled(s, Adopts(pid))
    ensures Channels(Apply(s, Adopts(pid)))
  {
  }

  lemma StealsKeepsInv(s: State, pid: int)
    requires Inv(s) && Enabled(s, Steals(pid))
    ensures Inv(Apply(s, Steals(pid)))
  {
  }

  lemma SignalsKeepsInv(s: State)
    requires Inv(s) && Enabled(s, Signals)
    ensures Inv(Apply(s, Signals))
  {
  }

  lemma ReceivesKeepsInv(s: State, uid: nat)
    requires Inv(s) && Enabled(s, Receives(uid))
    ensures Inv(Apply(s, Receives(uid)))
  {
  }

  lemma WakesKeepsInv(s: State)
    requires Inv(s) && Enabled(s, Wakes)
    ensures Inv(Apply(s, Wakes))
  {
  }

  lemma BeginsReapKeepsInv(s: State)
    requires Inv(s) && Enabled(s, BeginsReap)
    ensures Inv(Apply(s, BeginsReap))
  {
  }

  lemma WaitsKeepsInv(s: State, pid: int)
    requires Inv(s) && Enabled(s, Waits(pid))
    ensures Inv(Apply(s, Waits(pid)))
  {
  }

  lemma FindsNoneKeepsInv(s: State)
    requires Inv(s) && Enabled(s, FindsNone)
    ensures Inv(Apply(s, FindsNone))
  {
  }

  lemma BeginsTrackKeepsInv(s: State)
    requires Inv(s) && Enabled(s, BeginsTrack)
    ensures Inv(Apply(s, BeginsTrack))
  {
  }

  lemma StartFailsKeepsInv(s: State)
    requires Inv(s) && Enabled(s, StartFails)
    ensures Inv(Apply(s, StartFails))
  {
  }

  lemma RegistersKeepsInv(s: State)
    requires Inv(s) && Enabled(s, Registers)
    ensures Inv(Apply(s, Registers))
  {
  }

  lemma StartsKeepsKernel(s: State, pid: int)
    requires Inv(s) && Enabled(s, Starts(pid))
    ensures var after := Apply(s, Starts(pid));
      Kernel(after) && NoLostWakeup(after) && !after.dropped
  {
  }

  lemma StartsKeepsWaiters(s: State, pid: int)
    requires Inv(s) && Enabled(s, Starts(pid))
    ensures NoStaleWaiter(Apply(s, Starts(pid))) && NoMissingWaiter(Apply(s, Starts(pid)))
  {
  }

  lemma StartsKeepsChannel(s: State, pid: int, u: nat)
    requires Inv(s) && Enabled(s, Starts(pid)) && u in Apply(s, Starts(pid)).sent
    ensures var after := Apply(s, Starts(pid));
      after.sent.Keys == after.buf.Keys && u in after.pids && ChannelOk(after, u)
  {
  }

  lemma DeliversKeepsKernel(s: State)
    requires Inv(s) && Enabled(s, Delivers)
    ensures Kernel(Apply(s, Delivers)) && NoLostWakeup(Apply(s, Delivers))
  {
  }

  lemma DeliversKeepsWaiters(s: State)
    requires Inv(s) && Enabled(s, Delivers)
    ensures NoStaleWaiter(Apply(s, Delivers)) && NoMissingWaiter(Apply(s, Delivers))
  {
  }

  lemma DeliversKeepsChannel(s: State, u: nat)
    requires Inv(s) && Enabled(s, Delivers) && u in Apply(s, Delivers).sent
    ensures var after := Apply(s, Delivers);
      after.sent.Keys == after.buf.Keys && u in after.pids && ChannelOk(after, u)
  {
  }

  lemma DeliversFindsRoom(s: State)
    requires Inv(s) && Enabled(s, Delivers)
    ensures !Apply(s, Delivers).dropped && Apply(s, Delivers).sent.Keys == Apply(s, Delivers).buf.Keys
  {
    if s.lock.pid in s.waiters { assert Awaited(s, s.lock.pid); }
  }

  lemma KeepsInv(s: State, op: Op)
    requires Inv(s) && Enabled(s, op)
    ensures Inv(Apply(s, op))
  {
    match op
    case Exits(pid, code) => ExitsKeepsInv(s, pid, code);
    case Adopts(pid) =>
      AdoptsKeepsWaiters(s, pid);
      AdoptsKeepsChannels(s, pid);
    case Steals(pid) => StealsKeepsInv(s, pid);
    case Signals => SignalsKeepsInv(s);
    case Receives(uid) => ReceivesKeepsInv(s, uid);
    case Wakes => WakesKeepsInv(s);
    case BeginsReap => BeginsReapKeepsInv(s);
    case Waits(pid) => WaitsKeepsInv(s, pid);
    case FindsNone => FindsNoneKeepsInv(s);
    case BeginsTrack => BeginsTrackKeepsInv(s);
    case StartFails => StartFailsKeepsInv(s);
    case Registers => RegistersKeepsInv(s);
    case Starts(pid) =>
      StartsKeepsKernel(s, pid);
      StartsKeepsWaiters(s, pid);
      forall u | u in Apply(s, op).sent { StartsKeepsChannel(s, pid, u); }
    case Delivers =>
      DeliversKeepsKernel(s);
      DeliversKeepsWaiters(s);
      DeliversFindsRoom(s);
      forall u | u in Apply(s, op).sent { DeliversKeepsChannel(s, u); }
  }

  lemma {:induction false} RunKeepsInv(ops: seq<Op>, ss: seq<State>, n: nat)
    requires Run(ops, ss) && n <= |ops|
    ensures Inv(ss[n])
  {
    if n > 0 {
      assert Step(ops, ss, n - 1);
      RunKeepsInv(ops, ss, n - 1);
      KeepsInv(ss[n - 1], ops[n - 1]);
    }
  }

  // ---------------------------------------------------------------- the theorems

  /** A child started by trackChild. */
  predicate Tracked(s: State, u: nat) { u in s.sent }

  /** Still to be collected, or just collected and about to be delivered. */
  predicate Outstanding(s: State, u: nat) {
    u in s.pids && (InTable(s, u) || IsCollected(s, s.pids[u], u))
  }

  /** On every interleaving, a tracked child is sent nothing while it is outstanding
      and afterwards exactly its own exit code, once; the non-blocking send of reap
      never takes its default branch. */
  lemma EveryExitDeliveredOnce(ops: seq<Op>, ss: seq<State>, n: nat, u: nat)
    requires Run(ops, ss) && n <= |ops| && Tracked(ss[n], u)
    ensures Outstanding(ss[n], u) ==> ss[n].sent[u] == []
    ensures !Outstanding(ss[n], u) ==> u in ss[n].codes && ss[n].sent[u] == [ss[n].codes[u]]
    ensures !ss[n].dropped
  {
    RunKeepsInv(ops, ss, n);
    assert ChannelOk(ss[n], u);
  }

  /** A collected exit code reaches the waiter of that very child if it is tracked, and
      nobody otherwise, even when its pid has been handed out again in between. */
  lemma DeliveryFindsItsWaiter(ops: seq<Op>, ss: seq<State>, n: nat)
    requires Run(ops, ss) && n < |ops| && ops[n].Delivers?
    ensures ss[n].lock.Collected?
    ensures Tracked(ss[n], ss[n].lock.uid) ==>
      && ss[n + 1].sent == ss[n].sent[ss[n].lock.uid := [ss[n].lock.code]]
      && ss[n + 1].waiters == ss[n].waiters - {ss[n].lock.pid}
    ensures !Tracked(ss[n], ss[n].lock.uid) ==> ss[n + 1] == ss[n].(lock := Draining)
  {
    RunKeepsInv(ops, ss, n);
    assert Step(ops, ss, n);
    var s := ss[n];
    if s.lock.pid in s.waiters { assert Awaited(s, s.lock.pid); }
    if Tracked(s, s.lock.uid) { assert ChannelOk(s, s.lock.uid) && [] + [s.lock.code] == [s.lock.code]; }
  }

  /** No wakeup is lost: when the reaper is asleep with no token queued and no signal
      under way, nothing is left to collect, and every tracked child still runs or has
      had its code delivered. */
  lemma AsleepMeansAllDelivered(ops: seq<Op>, ss: seq<State>, n: nat, u: nat)
    requires Run(ops, ss) && n <= |ops|
    requires !ss[n].signal && !ss[n].token && !ss[n].awake
    ensures !HasZombie(ss[n])
    ensures Tracked(ss[n], u) && ss[n].sent[u] == [] ==>
      u in ss[n].pids && ss[n].pids[u] in ss[n].procs && ss[n].procs[ss[n].pids[u]] == Live(u)
    ensures Tracked(ss[n], u) && ss[n].sent[u] != [] ==> u in ss[n].codes && ss[n].sent[u] == [ss[n].codes[u]]
  {
    RunKeepsInv(ops, ss, n);
    var s := ss[n];
    if Tracked(s, u) {
      assert ChannelOk(s, u);
      if s.sent[u] == [] {
        var p := s.pids[u];
        assert p in s.procs && s.procs[p].uid == u;
      }
    }
  }

  /** A child that still runs has no exit code on record. */
  ghost predicate NoEarlyCode(s: State) {
    && (forall p | p in s.procs && s.procs[p].Live? :: s.procs[p].uid !in s.codes)
    && (forall u | u in s.codes :: u < s.next)
  }

  lemma StepKeepsNoEarlyCode(s: State, op: Op)
    requires Inv(s) && NoEarlyCode(s) && Enabled(s, op)
    ensures NoEarlyCode(Apply(s, op))
    ensures forall u | u in s.codes :: u in Apply(s, op).codes && Apply(s, op).codes[u] == s.codes[u]
  {
    var after := Apply(s, op);
    forall p | p in after.procs && after.procs[p].Live? ensures after.procs[p].uid !in after.codes {
      if p in s.procs { assert Recorded(s, p); }
      if op.Exits? { assert Recorded(s, op.pid); }
    }
  }

  lemma {:induction false} RunHasNoEarlyCode(ops: seq<Op>, ss: seq<State>, n: nat)
    requires Run(ops, ss) && n <= |ops|
    ensures NoEarlyCode(ss[n])
  {
    if n > 0 {
      assert Step(ops, ss, n - 1);
      RunHasNoEarlyCode(ops, ss, n - 1);
      RunKeepsInv(ops, ss, n - 1);
      StepKeepsNoEarlyCode(ss[n - 1], ops[n - 1]);
    }
  }

  lemma {:induction false} CodesStay(ops: seq<Op>, ss: seq<State>, m: nat, n: nat, u: nat)
    requires Run(ops, ss) && m <= n <= |ops| && u in ss[m].codes
    ensures u in ss[n].codes && ss[n].codes[u] == ss[m].codes[u]
    decreases n
  {
    if m < n {
      assert Step(ops, ss, n - 1);
      CodesStay(ops, ss, m, n - 1, u);
      RunHasNoEarlyCode(ops, ss, n - 1);
      RunKeepsInv(ops, ss, n - 1);
      StepKeepsNoEarlyCode(ss[n - 1], ops[n - 1]);
    }
  }

  /** Of tracked child `u` there is an exit, with this code, that nobody has been told of yet. */
  ghost predicate Exited(s: State, u: nat, code: int) {
    u in s.sent && exists p :: p in s.procs && s.procs[p] == Zombie(u, code)
  }

  lemma CollectedIsGone(s: State, u: nat)
    requires NoEarlyCode(s) && !HasZombie(s) && u in s.pids && u in s.codes
    ensures !InTable(s, u)
  {
    var p := s.pids[u];
    if p in s.procs { assert s.procs[p].Live? && s.procs[p].uid !in s.codes; }
  }

  /** When a drain is over, every tracked child that had exited before it has been told its own code. */
  lemma DrainDelivers(ops: seq<Op>, ss: seq<State>, m: nat, n: nat, u: nat, code: int)
    requires Run(ops, ss) && m <= n <= |ops| && Exited(ss[m], u, code)
    requires u in ss[n].sent && !HasZombie(ss[n]) && !ss[n].lock.Collected?
    ensures ss[n].sent[u] == [code]
  {
    RunKeepsInv(ops, ss, m);
    RunKeepsInv(ops, ss, n);
    RunHasNoEarlyCode(ops, ss, n);
    var p :| p in ss[m].procs && ss[m].procs[p] == Zombie(u, code);
    assert Recorded(ss[m], p);
    CodesStay(ops, ss, m, n, u);
    assert ChannelOk(ss[n], u);
    CollectedIsGone(ss[n], u);
  }

  /** The channel of a waiter that is about to be told is there and empty. */
  lemma WaiterHasRoom(ops: seq<Op>, ss: seq<State>)
    requires Run(ops, ss)
    ensures var s := ss[|ops|]; s.lock.Collected? && s.lock.pid in s.waiters ==>
      var ch := s.waiters[s.lock.pid]; ch in s.buf && ch in s.sent && s.buf[ch] == []
  {
    RunKeepsInv(ops, ss, |ops|);
    var s := ss[|ops|];
    if s.lock.Collected? && s.lock.pid in s.waiters {
      assert Awaited(s, s.lock.pid) && ChannelOk(s, s.waiters[s.lock.pid]);
    }
  }

  /** How often the code of child `u` was taken from its channel. */
  function Taken(ops: seq<Op>, n: nat, u: nat): nat
    requires n <= |ops|
  {
    if n == 0 then 0 else Taken(ops, n - 1, u) + if ops[n - 1] == Receives(u) then 1 else 0
  }

  /** What was sent to a tracked child was taken once or is still in its channel. */
  lemma {:induction false} TakenOnce(ops: seq<Op>, ss: seq<State>, n: nat, u: nat)
    requires Run(ops, ss) && n <= |ops|
    ensures Tracked(ss[n], u) ==> u in ss[n].buf && |ss[n].sent[u]| <= 1
    ensures Tracked(ss[n], u) ==> Taken(ops, n, u) + |ss[n].buf[u]| == |ss[n].sent[u]|
    ensures !Tracked(ss[n], u) ==> Taken(ops, n, u) == 0
  {
    RunKeepsInv(ops, ss, n);
    if Tracked(ss[n], u) { assert ChannelOk(ss[n], u); }
    if n > 0 {
      assert Step(ops, ss, n - 1);
      RunKeepsInv(ops, ss, n - 1);
      TakenOnce(ops, ss, n - 1, u);
      StepTakes(ss[n - 1], ops[n - 1], u);
    }
  }

  /** One step takes what is in the channel, or adds to both what is in it and what was sent. */
  ghost predicate Balanced(s: State, after: State, u: nat, taken: nat)
    requires s.sent.Keys == s.buf.Keys
  {
    && after.sent.Keys == after.buf.Keys && s.sent.Keys <= after.sent.Keys
    && (u !in s.sent ==> taken == 0 && (u in after.sent ==> after.buf[u] == [] && after.sent[u] == []))
    && (u in s.sent ==> |s.buf[u]| - |after.buf[u]| + |after.sent[u]| - |s.sent[u]| == taken)
  }

  lemma ReceiveTakes(s: State, who: nat, u: nat)
    requires Inv(s) && Enabled(s, Receives(who)) && (u in s.sent ==> |s.buf[u]| <= 1)
    ensures Balanced(s, Apply(s, Receives(who)), u, if who == u then 1 else 0)
  {
  }

  lemma StartTakesNothing(s: State, pid: int, u: nat)
    requires Inv(s) && Enabled(s, Starts(pid))
    ensures Balanced(s, Apply(s, Starts(pid)), u, 0)
  {
    assert s.next !in s.pids;
  }

  lemma DeliveryTakesNothing(s: State, u: nat)
    requires Inv(s) && Enabled(s, Delivers)
    ensures Balanced(s, Apply(s, Delivers), u, 0)
  {
    if s.lock.pid in s.waiters { assert Awaited(s, s.lock.pid); }
  }

  lemma OthersTakeNothing(s: State, op: Op, u: nat)
    requires s.sent.Keys == s.buf.Keys && Enabled(s, op) && !op.Receives? && !op.Starts? && !op.Delivers?
    ensures Balanced(s, Apply(s, op), u, 0)
  {
    assert Apply(s, op).sent == s.sent && Apply(s, op).buf == s.buf;
  }

  lemma StepTakes(s: State, op: Op, u: nat)
    requires Inv(s) && Enabled(s, op) && (u in s.sent ==> |s.buf[u]| <= 1)
    ensures Balanced(s, Apply(s, op), u, if op == Receives(u) then 1 else 0)
  {
    match op
    case Receives(who) => ReceiveTakes(s, who, u);
    case Starts(pid) => StartTakesNothing(s, pid, u);
    case Delivers => DeliveryTakesNothing(s, u);
    case _ => OthersTakeNothing(s, op, u);
  }

  // -------------------------------------------------------------------- the class

  class Reaper {
    var lock: Lock
    var waiters: map<int, nat>
    var rest: State              // everything but the two fields above
    var budget: nat              // how many more things the rest of the system will do
    ghost var ops: seq<Op>
    ghost var ss: seq<State>

    function Now(): State
      reads this`lock, this`waiters, this`rest
    {
      rest.(lock := lock, waiters := waiters)
    }

    /** What happened so far is an interleaving that the theorems speak about. */
    ghost predicate Valid()
      reads this
    {
      Run(ops, ss) && ss[|ops|] == Now()
    }

    /** startReaper. */
    constructor (budget: nat)
      ensures Valid() && ops == [] && lock.Free? && this.budget == budget
    {
      lock, waiters, rest := Free, map[], Start;
      this.budget := budget;
      ops, ss := [], [Start];
    }

    ghost method Took(op: Op, before: State)
      requires Run(ops, ss) && ss[|ops|] == before && Enabled(before, op) && Apply(before, op) == Now()
      modifies this`ops, this`ss
      ensures Valid() && ops == old(ops) + [op] && ss == old(ss) + [Now()]
    {
      var ops', ss' := ops + [op], ss + [Now()];
      forall i | 0 <= i < |ops'| ensures Step(ops', ss', i) {
        if i < |ops| { assert Step(ops, ss, i); }
      }
      ops, ss := ops', ss';
    }

    /** One thing that the kernel or a goroutine without the lock does. */
    method Happen()
      requires Valid() && budget > 0
      modifies this`rest, this`budget, this`ops, this`ss
      ensures Valid() && old(ops) <= ops && old(ss) <= ss
      ensures rest.sent == old(rest).sent && (old(rest).awake ==> rest.awake)
      ensures budget == old(budget) - 1
    {
      budget := budget - 1;
      var op: Op := *;
      if Outside(op) && Enabled(Now(), op) {
        ghost var before := Now();
        OutsideLeavesLock(before, op);
        rest := Apply(Now(), op);
        Took(op, before);
      }
    }

    /** Any part of the remaining budget is spent here. */
    method Interfere()
      requires Valid()
      modifies this`rest, this`budget, this`ops, this`ss
      ensures Valid() && old(ops) <= ops && old(ss) <= ss
      ensures rest.sent == old(rest).sent && (old(rest).awake ==> rest.awake)
      ensures budget < old(budget) || (budget == old(budget) && rest == old(rest))
    {
      var more: bool := *;
      while more && budget > 0
        invariant Valid() && old(ops) <= ops && old(ss) <= ss
        invariant rest.sent == old(rest).sent && (old(rest).awake ==> rest.awake)
        invariant budget < old(budget) || (budget == old(budget) && rest == old(rest))
        decreases budget
      {
        Happen();
        more := *;
      }
    }

    /** Wait4(-1, WNOHANG): collects some zombie, or finds none and the drain is over. */
    method Wait4() returns (found: bool)
      requires Valid() && lock.Draining?
      modifies this`rest, this`lock, this`ops, this`ss
      ensures Valid() && old(ops) < ops && old(ss) < ss
      ensures found ==> lock.Collected? && |rest.procs| < |old(rest).procs|
      ensures !found ==> lock.Free? && !HasZombie(Now()) && !rest.awake
      ensures rest.sent == old(rest).sent
    {
      ghost var before := Now();
      if forall p | p in rest.procs :: !rest.procs[p].Zombie? {
        lock, rest := Free, rest.(awake := false);
        Took(FindsNone, before);
        return false;
      }
      var pid :| pid in rest.procs && rest.procs[pid].Zombie?;
      assert rest.procs.Keys == (rest.procs - {pid}).Keys + {pid};
      lock := Collected(pid, rest.procs[pid].uid, rest.procs[pid].code);
      rest := rest.(procs := rest.procs - {pid});
      Took(Waits(pid), before);
      return true;
    }

    /** The non-blocking send of reap; its default is dead. */
    method TrySend(ch: nat, code: int)
      requires ch in rest.buf && ch in rest.sent && rest.buf[ch] == []
      modifies this`rest
      ensures rest ==
        old(rest).(buf := old(rest).buf[ch := [code]], sent := old(rest).sent[ch := old(rest).sent[ch] + [code]])
    {
      if rest.buf[ch] == [] {
        rest := rest.(buf := rest.buf[ch := [code]], sent := rest.sent[ch := rest.sent[ch] + [code]]);
      } else {
        assert false;
      }
    }

    /** The lookup after a Wait4 that collected something. */
    method Lookup()
      requires Valid() && lock.Collected?
      modifies this`waiters, this`rest, this`lock, this`ops, this`ss
      ensures Valid() && lock.Draining? && old(ops) <= ops && old(ss) <= ss
      ensures rest.procs == old(rest).procs && rest.sent.Keys == old(rest).sent.Keys
    {
      ghost var before := Now();
      var pid, code := lock.pid, lock.code;
      WaiterHasRoom(ops, ss);
      if pid in waiters {
        var ch := waiters[pid];
        waiters := waiters - {pid};
        TrySend(ch, code);
      }
      lock := Draining;
      Took(Delivers, before);
    }

    /** What holds when a drain that began in state `before` is over: nothing is left to collect, and every
        tracked child that had exited by then has been told its own code. */
    ghost predicate Drained(before: State)
      reads this`lock, this`waiters, this`rest
    {
      && lock.Free? && !rest.awake && !HasZombie(Now()) && rest.sent.Keys >= before.sent.Keys
      && forall u: nat, code: int :: Exited(before, u, code) ==> rest.sent[u] == [code]
    }

    method BeginReap()
      requires Valid() && lock.Free? && rest.awake
      modifies this`lock, this`ops, this`ss
      ensures Valid() && lock.Draining? && old(ops) <= ops && old(ss) <= ss
    {
      ghost var before := Now();
      lock := Draining;
      Took(BeginsReap, before);
    }

    /** The loop of reap. */
    method Drain()
      requires Valid() && lock.Draining?
      modifies this
      ensures Valid() && old(ops) <= ops && old(ss) <= ss && rest.sent.Keys == old(rest).sent.Keys
      ensures lock.Free? && !HasZombie(Now()) && !rest.awake
    {
      var more := true;
      while more
        invariant Valid() && old(ops) <= ops && old(ss) <= ss && rest.sent.Keys == old(rest).sent.Keys
        invariant if more then lock.Draining? else lock.Free? && !HasZombie(Now()) && !rest.awake
        decreases more, budget, |rest.procs|
      {
        Interfere();
        more := Wait4();
        if more {
          Interfere();
          Lookup();
        }
      }
    }

    /** reap: the drain loop under the lock. */
    method Reap()
      requires Valid() && lock.Free? && rest.awake
      modifies this
      ensures Valid() && old(ops) <= ops && old(ss) <= ss
      ensures Drained(old(Now()))
    {
      ghost var before, m := Now(), |ops|;
      BeginReap();
      Drain();
      forall u: nat, code: int | Exited(before, u, code) ensures rest.sent[u] == [code] {
        DrainDelivers(ops, ss, m, |ops|, u, code);
      }
    }

    /** cmd.Start fails. */
    method NotStarted()
      requires Valid() && lock.Spawning?
      modifies this`lock, this`ops, this`ss
      ensures Valid() && lock.Free? && ops == old(ops) + [StartFails] && old(ss) <= ss
    {
      ghost var before := Now();
      lock := Free;
      Took(StartFails, before);
    }

    /** cmd.Start succeeds, with any pid that is free. */
    method StartCommand(pid: int)
      requires Valid() && lock.Spawning? && pid !in rest.procs
      modifies this`rest, this`lock, this`ops, this`ss
      ensures Valid() && lock == Spawned(pid, old(rest).next) && old(ops) <= ops && old(ss) <= ss
      ensures rest.sent == old(rest).sent[old(rest).next := []] && old(rest).next !in old(rest).sent
    {
      ghost var before := Now();
      NextIsNew(ops, ss);
      var uid := rest.next;
      lock := Spawned(pid, uid);
      rest := rest.(procs := rest.procs[pid := Live(uid)], next := uid + 1,
        buf := rest.buf[uid := []], sent := rest.sent[uid := []], pids := rest.pids[uid := pid]);
      Took(Starts(pid), before);
    }

    method Register() returns (ch: nat)
      requires Valid() && lock.Spawned?
      modifies this`waiters, this`lock, this`ops, this`ss
      ensures Valid() && lock.Free? && ch == old(lock).uid && ops == old(ops) + [Registers] && old(ss) <= ss
    {
      ghost var before := Now();
      ch := lock.uid;
      waiters, lock := waiters[lock.pid := lock.uid], Free;
      Took(Registers, before);
    }

    method TakeLock()
      requires Valid() && lock.Free?
      modifies this`lock, this`ops, this`ss
      ensures Valid() && lock.Spawning? && ops == old(ops) + [BeginsTrack] && old(ss) <= ss
    {
      ghost var before := Now();
      lock := Spawning;
      Took(BeginsTrack, before);
    }

    /** trackChild: start and registration are one critical section. */
    method TrackChild() returns (ch: Option<nat>)
      requires Valid() && lock.Free?
      modifies this
      ensures Valid() && lock.Free? && old(ops) <= ops && old(ss) <= ss && |ops| >= |old(ops)| + 2
      ensures ch.Some? ==> ch.value !in old(rest).sent && rest.sent == old(rest).sent[ch.value := []]
      ensures ch.Some? ==> ops[|ops| - 1] == Registers
      ensures ch.None? ==> rest.sent == old(rest).sent && ops[|ops| - 1] == StartFails
    {
      TakeLock();
      Interfere();
      var pid: int, fails: bool := *, *;
      if fails || pid in rest.procs {
        NotStarted();
        return None;
      }
      StartCommand(pid);
      Interfere();
      var uid := Register();
      ch := Some(uid);
    }

    /** One turn of the goroutines that take the lock: an awake reaper drains, or a caller tracks a child. */
    method Turn() returns (reaped: bool)
      requires Valid() && lock.Free?
      modifies this
      ensures Valid() && lock.Free? && old(ops) <= ops && old(ss) <= ss
      ensures reaped ==> Drained(old(Now()))
    {
      ghost var m, start := |ops|, Now();
      Interfere();
      if
      case rest.awake =>
        Reap();
        forall u: nat, code: int | Exited(start, u, code) ensures rest.sent[u] == [code] {
          DrainDelivers(ops, ss, m, |ops|, u, code);
        }
        reaped := true;
      case true =>
        var ch := TrackChild();
        reaped := false;
    }

    /** The process from startReaper on: goroutines track children, the signal channel
        wakes the reaper, and everything else happens in between. */
    method Work(turns: nat)
      requires Valid() && lock.Free?
      modifies this
      ensures Valid() && lock.Free? && old(ops) <= ops
    {
      for i := 0 to turns
        invariant Valid() && lock.Free? && old(ops) <= ops && old(ss) <= ss
      {
        var reaped := Turn();
      }
    }
  }

  /** The steps of the kernel and of goroutines that do not hold the lock. */
  predicate Outside(op: Op) {
    match op
    case Exits(_, _) | Adopts(_) | Steals(_) | Signals | Receives(_) | Wakes => true
    case _ => false
  }

  lemma OutsideLeavesLock(s: State, op: Op)
    requires Outside(op) && Enabled(s, op)
    ensures Apply(s, op).lock == s.lock && Apply(s, op).waiters == s.waiters && Apply(s, op).sent == s.sent
    ensures s.awake ==> Apply(s, op).awake
  {
  }

  lemma NextIsNew(ops: seq<Op>, ss: seq<State>)
    requires Run(ops, ss)
    ensures ss[|ops|].next !in ss[|ops|].sent
  {
    RunKeepsInv(ops, ss, |ops|);
    assert ss[|ops|].next !in ss[|ops|].pids;
  }
}
