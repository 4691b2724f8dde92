/** What the main goroutine of one pg-guard process does, as a sequence of events,
    and the automaton every such sequence must be accepted by.  Supervisor keeps
    its journal accepted on every run; the lemmas here say what that means. */
module Journal {
  import opened Types
  import opened Hostname

  datatype BootstrapRole = AutoRole | ForcedPrimary | ForcedStandby
  datatype ShutdownMode = SwitchoverMode | RebootMode

  /** The settings the models read; durations are in milliseconds. */
  datatype Config = Config(
    peerHost: string,
    hostname: Option<string>,
    bootstrap: BootstrapRole,
    policy: Policy,
    mode: ShutdownMode,
    shutdownWait: nat,
    restartLimit: nat,
    restartWindow: nat,
    restartBackoff: nat)

  /** loadConfig's range checks. */
  predicate Loadable(cfg: Config) { cfg.shutdownWait > 0 && cfg.restartWindow > 0 }

  /** The steps whose answer decides what a start, a bootstrap or a rejoin does next. */
  datatype Tool = PortCheck | PgRewind | ConfigureStandby | ClearData | PgBasebackup | Initdb

  datatype Event =
    | BootstrapBegan                                 // runBootstrap begins on an empty PGDATA
    | BootstrapEnded(ok: bool)                       // it returned
    | Checked(data: PgData)                          // the startup rejoin check begins on this PGDATA
    | CheckFailed                                    // it returned an error
    | AskedPeer(answer: Answer)
    | AskedRole(recovery: Recovery)
    | InitdbRan
    | Wiped                                          // runBasebackup clears PGDATA
    | Ran(tool: Tool, ok: bool)                      // a step's answer; for PortCheck: nothing listens
    | Rejoined(ok: bool)
    | Started(pid: nat, data: PgData)
    | NotStarted                                     // the binary could not be started
    | Crashed(pid: nat, at: int, rearmed: bool)      // an exit nobody asked for, noticed by the main loop
    | RestartDue
    | StopBegan(pid: nat) | Stopped(pid: nat) | StopFailed(pid: nat)
    | NoticeSent(ok: bool) | PromoteSent(ok: bool)
    | Leaving                                        // handleTerminationSignal takes over

  /** What the main goroutine is doing about the present PGDATA, and what entitles it to start it. */
  datatype Licence =
    | NoLicence
    | Bootstrapping(sawPrimary: bool, last: Option<Answer>, ran: bool)   // its answers so far, and whether initdb ran
    | Undecided(last: Option<Answer>)                         // in a rejoin check; its last answer
    | AsIs                                                    // the check's last answer permits the start
    | WasStandby                                              // the check found a standby
    | RejoinedInCheck                                         // the check re-cloned from a primary peer
    | RejoinedOnRequest                                       // POST /api/rejoin did, outside any check

  datatype Ending = NeverRan | ByCrash | ByStop

  datatype Life = Life(
    up: Option<nat>,            // the child held in currentChild
    armed: bool,                // restartAt armed
    licence: Licence,
    portFree: bool,             // the last port check found nothing listening, and nothing was wiped since
    ended: Ending,              // how the last child went
    role: Option<Recovery>,     // the last local role check
    crashes: seq<int>,          // every crash time so far
    leaving: bool)

  const Birth := Life(None, false, NoLicence, false, NeverRan, None, [], false)

  /** The times strictly after `cutoff`, in order. */
  function After(ts: seq<int>, cutoff: int): seq<int> {
    if ts == [] then []
    else After(ts[..|ts| - 1], cutoff) + (if ts[|ts| - 1] > cutoff then [ts[|ts| - 1]] else [])
  }

  /** Whether a crash at `now`, after those in `before`, is within the restart budget. */
  predicate WithinBudget(cfg: Config, before: seq<int>, now: int) {
    cfg.restartLimit > 0 && |After(before + [now], now - cfg.restartWindow)| <= cfg.restartLimit
  }

  predicate InCheck(l: Life) { l.licence.Undecided? || l.licence.AsIs? }

  /** The main goroutine is neither bootstrapping nor in a rejoin check. */
  predicate Resting(l: Life) { l.licence.NoLicence? || l.licence.RejoinedOnRequest? }

  predicate PeerPermits(a: Answer) { a.Role? && !a.role.PrimaryRole? }

  function CheckBegun(cfg: Config, l: Life, data: PgData): Life {
    l.(licence := if cfg.peerHost == "" then AsIs else if data.Standby? then WasStandby else Undecided(None))
  }

  /** In a bootstrap that has not run initdb. */
  predicate Deciding(l: Life) { l.licence.Bootstrapping? && !l.licence.ran }

  /** A check that is over asks no more. */
  predicate MayAsk(l: Life) { Resting(l) || Deciding(l) || l.licence.Undecided? }

  /** Answers count only within a bootstrap, or a check that has to ask. */
  function Answered(l: Life, a: Answer): Life {
    match l.licence
    case Bootstrapping(saw, _, ran) => l.(licence := Bootstrapping(saw || a == Role(PrimaryRole), Some(a), ran))
    case Undecided(_) => l.(licence := if PeerPermits(a) then AsIs else Undecided(Some(a)))
    case _ => l
  }

  function AfterRejoin(l: Life, ok: bool): Life {
    match l.licence
    case Undecided(_) => if ok then l.(licence := RejoinedInCheck) else l
    case _ => l.(licence := if ok then RejoinedOnRequest else NoLicence)
  }

  predicate MayStart(l: Life, data: PgData) {
    && l.up.None? && !l.armed && !l.leaving
    && match l.licence
       case AsIs => true
       case WasStandby | RejoinedInCheck | RejoinedOnRequest => data.Standby?
       case _ => false
  }

  /** When PGDATA may be overwritten from the peer: on request, or after an answer that named it primary. */
  predicate MayReclone(cfg: Config, l: Life) {
    && l.up.None?
    && match l.licence
       case NoLicence | RejoinedOnRequest => true
       case Undecided(last) => last == Some(Role(PrimaryRole))
       case Bootstrapping(_, last, _) => cfg.bootstrap.ForcedStandby? || last == Some(Role(PrimaryRole))
       case _ => false
  }

  /** Which nodes may create a cluster at all. */
  predicate Founder(cfg: Config) {
    cfg.bootstrap.ForcedPrimary? || (cfg.bootstrap.AutoRole? && OrdinalZero(cfg.peerHost, cfg.hostname))
  }

  predicate MayInitdb(cfg: Config, l: Life) {
    && l.up.None? && l.licence.Bootstrapping? && Founder(cfg)
    && (cfg.bootstrap.AutoRole? ==> !l.licence.sawPrimary && (cfg.peerHost != "" ==> l.licence.last.Some?))
  }

  predicate MayStop(l: Life, pid: nat) { l.up == Some(pid) || l.leaving }

  predicate ActsAsPrimary(l: Life) { l.role.Some? && !l.role.value.InRecovery? }

  predicate MayAskToPromote(l: Life) { l.up.None? && l.ended.ByStop? && ActsAsPrimary(l) }

  /** A bootstrap is over only when initdb has run if it has to. */
  predicate MayEnd(cfg: Config, l: Life) {
    && l.licence.Bootstrapping?
    && (l.licence.ran <==> Founder(cfg) && (cfg.bootstrap.AutoRole? ==> !l.licence.sawPrimary))
  }

  /** The life after one more event, or None if the event is not allowed there.
      That a crash is rearmed exactly when it is within budget is part of Step. */
  function Next(cfg: Config, l: Life, e: Event): Option<Life> {
    match e
    case BootstrapBegan =>
      if l.up.None? && Resting(l) then Some(l.(licence := Bootstrapping(false, None, false))) else None
    case BootstrapEnded(_) => if MayEnd(cfg, l) then Some(l.(licence := NoLicence)) else None
    case Checked(data) => if l.up.None? && Resting(l) then Some(CheckBegun(cfg, l, data)) else None
    case AskedPeer(a) => if MayAsk(l) then Some(Answered(l, a)) else None
    case CheckFailed => if InCheck(l) then Some(l.(licence := NoLicence)) else None
    case AskedRole(r) => Some(l.(role := Some(r)))
    case InitdbRan => if MayInitdb(cfg, l) then Some(l.(licence := l.licence.(ran := true))) else None
    case Wiped => if MayReclone(cfg, l) && l.portFree then Some(l.(portFree := false)) else None
    case Ran(tool, ok) => Some(if tool.PortCheck? then l.(portFree := ok) else l)
    case NotStarted => Some(l)
    case Rejoined(ok) =>
      if MayReclone(cfg, l) && !l.licence.Bootstrapping? then Some(AfterRejoin(l, ok)) else None
    case Started(pid, data) =>
      if MayStart(l, data) then Some(l.(up := Some(pid), licence := NoLicence)) else None
    case Crashed(pid, at, rearmed) =>
      if l.up != Some(pid) || l.leaving then None
      else if l.crashes != [] && at < l.crashes[|l.crashes| - 1] then None
      else Some(l.(up := None, armed := rearmed, ended := ByCrash, crashes := l.crashes + [at]))
    case RestartDue => if l.armed then Some(l.(armed := false)) else None
    case StopBegan(pid) => if MayStop(l, pid) then Some(l) else None
    case Stopped(pid) => if MayStop(l, pid) then Some(l.(up := None, ended := ByStop)) else None
    case StopFailed(pid) => if MayStop(l, pid) then Some(l) else None
    case NoticeSent(_) => if ActsAsPrimary(l) then Some(l) else None
    case PromoteSent(_) => if MayAskToPromote(l) then Some(l) else None
    case Leaving => Some(l.(leaving := true))
  }

  /** `ls` is the automaton's run over the journal `t`: one life before each event and one at the end. */
  ghost predicate Run(cfg: Config, t: seq<Event>, ls: seq<Life>) {
    && |ls| == |t| + 1
    && ls[0] == Birth
    && forall i :: 0 <= i < |t| ==> Step(cfg, t, ls, i)
  }

  ghost predicate Step(cfg: Config, t: seq<Event>, ls: seq<Life>, i: nat)
    requires i < |t| && |ls| == |t| + 1
  {
    && Next(cfg, ls[i], t[i]) == Some(ls[i + 1])
    && (t[i].Crashed? ==> t[i].rearmed == WithinBudget(cfg, ls[i].crashes, t[i].at))
  }

  lemma RunSnoc(cfg: Config, t: seq<Event>, ls: seq<Life>, e: Event)
    requires Run(cfg, t, ls)
    requires Next(cfg, ls[|t|], e).Some?
    requires e.Crashed? ==> e.rearmed == WithinBudget(cfg, ls[|t|].crashes, e.at)
    ensures Run(cfg, t + [e], ls + [Next(cfg, ls[|t|], e).value])
  {
    var t', ls' := t + [e], ls + [Next(cfg, ls[|t|], e).value];
    forall i | 0 <= i < |t'| ensures Step(cfg, t', ls', i) {
      if i < |t| { assert Step(cfg, t, ls, i); }
    }
  }

  // ------------------------------------------------------------ exit attribution

  datatype Kind = AStart | ACrash | AStop

  predicate IsA(e: Event, kind: Kind) {
    match kind
    case AStart => e.Started?
    case ACrash => e.Crashed?
    case AStop => e.Stopped?
  }

  /** How many of the first `n` events are of a kind. */
  function Count(t: seq<Event>, n: nat, kind: Kind): nat
    requires n <= |t|
  {
    if n == 0 then 0 else Count(t, n - 1, kind) + (if IsA(t[n - 1], kind) then 1 else 0)
  }

  /** Until the process itself is told to leave, every child ever started has
      exactly one of three fates: a recorded crash, a completed stop, or it is the
      one still held. */
  lemma {:induction false} ExitsAreAttributed(cfg: Config, t: seq<Event>, ls: seq<Life>, n: nat)
    requires Run(cfg, t, ls)
    requires n <= |t| && !ls[n].leaving
    ensures Count(t, n, AStart) == Count(t, n, ACrash) + Count(t, n, AStop) + if ls[n].up.Some? then 1 else 0
  {
    if n > 0 {
      assert Step(cfg, t, ls, n - 1);
      ExitsAreAttributed(cfg, t, ls, n - 1);
    }
  }

  /** An automatic restart is pending only after a crash that was within budget,
      with no start, stop or other crash since: a requested stop never arms one. */
  lemma {:induction false} RestartsAnswerCrashes(cfg: Config, t: seq<Event>, ls: seq<Life>, n: nat) returns (j: nat)
    requires Run(cfg, t, ls)
    requires n <= |t| && ls[n].armed
    ensures j < n && t[j].Crashed? && t[j].rearmed && WithinBudget(cfg, ls[j].crashes, t[j].at)
    ensures forall k :: j < k < n ==> !t[k].Started? && !t[k].Crashed? && !t[k].RestartDue?
    ensures !ls[n].leaving ==> forall k :: j < k < n ==> !t[k].Stopped?
    ensures ls[n].up.None?
  {
    assert Step(cfg, t, ls, n - 1);
    if t[n - 1].Crashed? {
      j := n - 1;
    } else {
      j := RestartsAnswerCrashes(cfg, t, ls, n - 1);
    }
  }

  /** After a point at which no child is held, one is held later exactly when some start since then has met
      neither a crash nor a stop.  So an exit request finds a child only if a start came in between. */
  lemma {:induction false} HeldSince(cfg: Config, t: seq<Event>, ls: seq<Life>, m: nat, n: nat)
    requires Run(cfg, t, ls) && m <= n <= |t| && ls[m].up.None?
    ensures ls[n].up.Some? <==> exists i :: m <= i < n && t[i].Started? && NoEnd(t, i + 1, n)
    decreases n
  {
    if m < n {
      assert Step(cfg, t, ls, n - 1);
      HeldSince(cfg, t, ls, m, n - 1);
      if ls[n].up.Some? {
        var i: nat :| m <= i < n && t[i].Started? && (i == n - 1 || NoEnd(t, i + 1, n - 1));
        assert NoEnd(t, i + 1, n);
      }
      forall i: nat | m <= i < n && t[i].Started? && NoEnd(t, i + 1, n)
        ensures i == n - 1 || NoEnd(t, i + 1, n - 1)
      {}
    }
  }

  ghost predicate NoEnd(t: seq<Event>, from: nat, n: nat)
    requires n <= |t|
  {
    forall k :: from <= k < n ==> !t[k].Crashed? && !t[k].Stopped?
  }

  // -------------------------------------------------------- fail-closed startup

  predicate EndsCheck(e: Event) { e.Checked? || e.CheckFailed? || e.Started? }

  /** The rejoin check begun at `c` is still the present one after `n` events. */
  ghost predicate Open(t: seq<Event>, c: nat, n: nat) {
    c < n <= |t| && t[c].Checked? && forall k :: c < k < n ==> !EndsCheck(t[k])
  }

  /** The last peer answer since `from` is event `j`. */
  ghost predicate LastAnswer(t: seq<Event>, from: nat, j: nat, n: nat) {
    from < j < n <= |t| && t[j].AskedPeer? && forall k :: j < k < n ==> !t[k].AskedPeer?
  }

  ghost predicate NoAnswer(t: seq<Event>, from: nat, n: nat)
    requires n <= |t|
  {
    forall k :: from < k < n ==> !t[k].AskedPeer?
  }

  predicate OnCheck(l: Life) { !Resting(l) && !l.licence.Bootstrapping? }

  lemma {:induction false} CheckIsOpen(cfg: Config, t: seq<Event>, ls: seq<Life>, n: nat) returns (c: nat)
    requires Run(cfg, t, ls) && n <= |t| && OnCheck(ls[n])
    ensures Open(t, c, n)
  {
    assert Step(cfg, t, ls, n - 1);
    if t[n - 1].Checked? { c := n - 1; } else { c := CheckIsOpen(cfg, t, ls, n - 1); }
  }

  lemma {:induction false} OpenIsOnCheck(cfg: Config, t: seq<Event>, ls: seq<Life>, c: nat, n: nat)
    requires Run(cfg, t, ls) && Open(t, c, n)
    ensures OnCheck(ls[n])
    decreases n
  {
    assert Step(cfg, t, ls, n - 1);
    if c < n - 1 { OpenIsOnCheck(cfg, t, ls, c, n - 1); }
  }

  /** A check is open exactly while the licence says so. */
  lemma OpenExactlyOnCheck(cfg: Config, t: seq<Event>, ls: seq<Life>, n: nat) returns (c: nat)
    requires Run(cfg, t, ls) && n <= |t|
    ensures OnCheck(ls[n]) ==> Open(t, c, n)
    ensures !OnCheck(ls[n]) ==> forall x: nat :: !Open(t, x, n)
  {
    c := 0;
    if OnCheck(ls[n]) {
      c := CheckIsOpen(cfg, t, ls, n);
    } else {
      forall x: nat ensures !Open(t, x, n) {
        if Open(t, x, n) { OpenIsOnCheck(cfg, t, ls, x, n); }
      }
    }
  }

  /** What the licence stands for, in terms of the events of the present check: event `j` is
      its last peer answer, and event `k` the re-clone that completed it. */
  ghost predicate Stands(cfg: Config, t: seq<Event>, n: nat, licence: Licence, c: nat, j: nat, k: nat) {
    && Open(t, c, n)
    && match licence
       case Undecided(None) => !t[c].data.Standby? && NoAnswer(t, c, n)
       case Undecided(Some(a)) => !t[c].data.Standby? && LastAnswer(t, c, j, n) && t[j].answer == a && !PeerPermits(a)
       case AsIs =>
         cfg.peerHost != "" ==>
           && !t[c].data.Standby? && LastAnswer(t, c, j, n) && PeerPermits(t[j].answer)
           && (forall x :: j < x < n ==> !t[x].Rejoined?)
       case WasStandby => t[c].data.Standby?
       case RejoinedInCheck =>
         !t[c].data.Standby? && LastAnswer(t, c, j, n) && t[j].answer == Role(PrimaryRole)
         && j < k < n && t[k] == Rejoined(true)
       case _ => false
  }

  lemma {:induction false} LicenceStands(cfg: Config, t: seq<Event>, ls: seq<Life>, n: nat)
      returns (c: nat, j: nat, k: nat)
    requires Run(cfg, t, ls) && n <= |t| && OnCheck(ls[n])
    ensures Stands(cfg, t, n, ls[n].licence, c, j, k)
  {
    assert Step(cfg, t, ls, n - 1);
    j, k := 0, 0;
    if t[n - 1].Checked? {
      c := n - 1;
    } else {
      c, j, k := LicenceStands(cfg, t, ls, n - 1);
      if t[n - 1].AskedPeer? { j := n - 1; }
      if t[n - 1].Rejoined? { k := n - 1; }
    }
  }

  /** Fail-closed startup, on every run of the process: with a peer configured, a start that completes a
      check begun on a PGDATA that was no standby has a successful last peer answer in that very check;
      it was non-primary with no re-clone since, or it was primary and a completed re-clone followed. */
  lemma StartsFailClosed(cfg: Config, t: seq<Event>, ls: seq<Life>, i: nat, c: nat) returns (j: nat, k: nat)
    requires Run(cfg, t, ls) && cfg.peerHost != ""
    requires i < |t| && t[i].Started?
    requires Open(t, c, i) && !t[c].data.Standby?
    ensures LastAnswer(t, c, j, i)
    ensures
      || (PeerPermits(t[j].answer) && forall x :: j < x < i ==> !t[x].Rejoined?)
      || (t[j].answer == Role(PrimaryRole) && j < k < i && t[k] == Rejoined(true) && t[i].data.Standby?)
  {
    assert Step(cfg, t, ls, i);
    var c' := OpenExactlyOnCheck(cfg, t, ls, i);
    c', j, k := LicenceStands(cfg, t, ls, i);
    assert c' == c;
  }

  /** So a check without a successful status never ends in a start. */
  lemma NoAnswerNoStart(cfg: Config, t: seq<Event>, ls: seq<Life>, i: nat, c: nat)
    requires Run(cfg, t, ls) && cfg.peerHost != ""
    requires i < |t| && Open(t, c, i) && !t[c].data.Standby?
    requires forall x :: c < x < i && t[x].AskedPeer? ==> t[x].answer.Unreachable?
    ensures !t[i].Started?
  {
    if t[i].Started? {
      var j, k := StartsFailClosed(cfg, t, ls, i, c);
    }
  }

  /** Every other start is of a standby: one found by the check, or one re-cloned on
      request while no check was open. */
  lemma OtherStartsAreStandbys(cfg: Config, t: seq<Event>, ls: seq<Life>, i: nat) returns (k: nat)
    requires Run(cfg, t, ls) && cfg.peerHost != ""
    requires i < |t| && t[i].Started?
    requires forall c: nat :: Open(t, c, i) ==> t[c].data.Standby?
    ensures t[i].data.Standby?
    ensures (forall c: nat :: !Open(t, c, i)) ==>
      k < i && t[k] == Rejoined(true) && forall c: nat :: !Open(t, c, k)
  {
    assert Step(cfg, t, ls, i);
    var c := OpenExactlyOnCheck(cfg, t, ls, i);
    if OnCheck(ls[i]) {
      var j;
      c, j, k := LicenceStands(cfg, t, ls, i);
    } else {
      k := RequestHasEvent(cfg, t, ls, i);
    }
  }

  lemma {:induction false} RequestHasEvent(cfg: Config, t: seq<Event>, ls: seq<Life>, n: nat) returns (k: nat)
    requires Run(cfg, t, ls) && n <= |t| && ls[n].licence.RejoinedOnRequest?
    ensures k < n && t[k] == Rejoined(true) && forall c: nat :: !Open(t, c, k)
  {
    assert Step(cfg, t, ls, n - 1);
    if t[n - 1].Rejoined? {
      k := n - 1;
      var c := OpenExactlyOnCheck(cfg, t, ls, k);
    } else {
      k := RequestHasEvent(cfg, t, ls, n - 1);
    }
  }

  /** Within a check PGDATA is cleared or rewound only right after the peer called itself primary. */
  lemma ReclonesFollowPrimary(cfg: Config, t: seq<Event>, ls: seq<Life>, i: nat, c: nat) returns (j: nat)
    requires Run(cfg, t, ls)
    requires i < |t| && (t[i].Wiped? || t[i].Rejoined?) && Open(t, c, i)
    ensures !t[c].data.Standby? && LastAnswer(t, c, j, i) && t[j].answer == Role(PrimaryRole)
  {
    assert Step(cfg, t, ls, i);
    var c' := OpenExactlyOnCheck(cfg, t, ls, i);
    var k;
    c', j, k := LicenceStands(cfg, t, ls, i);
    assert c' == c;
  }

  /** When a check begun on a PGDATA that was no standby may start one that is no standby either, whatever
      became of the directory meanwhile: exactly when its last answer was a successful non-primary one. */
  lemma StartsAsIsExactly(cfg: Config, t: seq<Event>, ls: seq<Life>, n: nat, c: nat, data: PgData)
    requires Run(cfg, t, ls) && cfg.peerHost != ""
    requires n <= |t| && Open(t, c, n) && !t[c].data.Standby? && !data.Standby?
    requires ls[n].up.None? && !ls[n].armed && !ls[n].leaving
    ensures MayStart(ls[n], data) <==> exists j: nat :: LastAnswer(t, c, j, n) && PeerPermits(t[j].answer)
  {
    var c' := OpenExactlyOnCheck(cfg, t, ls, n);
    var j, k;
    c', j, k := LicenceStands(cfg, t, ls, n);
    assert c' == c;
    forall x: nat | LastAnswer(t, c, x, n) && LastAnswer(t, c, j, n) ensures x == j {
      SameAnswer(t, c, x, j, n);
    }
  }

  lemma SameAnswer(t: seq<Event>, from: nat, i: nat, j: nat, n: nat)
    requires LastAnswer(t, from, i, n) && LastAnswer(t, from, j, n)
    ensures i == j
  {
  }

  /** A run in which a re-clone clears PGDATA and fails, the next answer is "unknown", and the check
      goes on to start the empty directory. */
  lemma StartsOnClearedData(cfg: Config) returns (t: seq<Event>, ls: seq<Life>)
    requires cfg.peerHost != ""
    ensures Run(cfg, t, ls)
    ensures t == [Checked(Writable), AskedPeer(Role(PrimaryRole)), Ran(PgRewind, false), Ran(PortCheck, true), Wiped,
                  Ran(ClearData, true), Ran(PgBasebackup, false), Rejoined(false),
                  AskedPeer(Role(UnknownRole)), Started(0, Empty)]
  {
    var told := Birth.(licence := Undecided(Some(Role(PrimaryRole))));
    t := [Checked(Writable), AskedPeer(Role(PrimaryRole)), Ran(PgRewind, false), Ran(PortCheck, true), Wiped,
          Ran(ClearData, true), Ran(PgBasebackup, false), Rejoined(false),
          AskedPeer(Role(UnknownRole)), Started(0, Empty)];
    ls := [Birth, Birth.(licence := Undecided(None)), told, told, told.(portFree := true), told, told, told, told,
           Birth.(licence := AsIs), Birth.(up := Some(0))];
    forall i | 0 <= i < 10 ensures Step(cfg, t, ls, i) {}
  }

  // ------------------------------------------------------- creating the cluster

  /** The bootstrap begun at `b` is still under way after `n` events. */
  ghost predicate Booting(t: seq<Event>, b: nat, n: nat) {
    b < n <= |t| && t[b].BootstrapBegan? && forall k :: b < k < n ==> !t[k].BootstrapBegan? && !t[k].BootstrapEnded?
  }

  ghost predicate NoPrimary(t: seq<Event>, from: nat, n: nat)
    requires n <= |t|
  {
    forall k :: from < k < n ==> t[k] != AskedPeer(Role(PrimaryRole))
  }

  /** What one more event changes in a bootstrap. */
  lemma BootStep(cfg: Config, l: Life, e: Event, l': Life)
    requires Next(cfg, l, e) == Some(l') && l'.licence.Bootstrapping? && !e.BootstrapBegan?
    ensures l.licence.Bootstrapping? && !e.BootstrapEnded?
    ensures l'.licence.last == if e.AskedPeer? then Some(e.answer) else l.licence.last
  {
  }

  lemma {:induction false} BootHasBegun(cfg: Config, t: seq<Event>, ls: seq<Life>, n: nat) returns (b: nat)
    requires Run(cfg, t, ls) && n <= |t| && ls[n].licence.Bootstrapping?
    ensures Booting(t, b, n)
  {
    assert Step(cfg, t, ls, n - 1);
    if t[n - 1].BootstrapBegan? {
      b := n - 1;
    } else {
      BootStep(cfg, ls[n - 1], t[n - 1], ls[n]);
      b := BootHasBegun(cfg, t, ls, n - 1);
    }
  }

  lemma {:induction false} BootRemembers(cfg: Config, t: seq<Event>, ls: seq<Life>, b: nat, n: nat)
    requires Run(cfg, t, ls) && Booting(t, b, n)
    ensures ls[n].licence.Bootstrapping?
    ensures !ls[n].licence.sawPrimary <==> NoPrimary(t, b, n)
    ensures ls[n].licence.ran <==> Initialised(t, b, n)
    decreases n
  {
    assert Step(cfg, t, ls, n - 1);
    if b < n - 1 {
      BootRemembers(cfg, t, ls, b, n - 1);
      OneMoreEvent(t, b, n - 1);
    }
  }

  lemma OneMoreEvent(t: seq<Event>, b: nat, n: nat)
    requires b < n < |t|
    ensures NoPrimary(t, b, n + 1) <==> NoPrimary(t, b, n) && t[n] != AskedPeer(Role(PrimaryRole))
    ensures Initialised(t, b, n + 1) <==> Initialised(t, b, n) || t[n].InitdbRan?
  {
  }

  lemma {:induction false} BootLastAnswer(cfg: Config, t: seq<Event>, ls: seq<Life>, b: nat, n: nat) returns (j: nat)
    requires Run(cfg, t, ls) && Booting(t, b, n)
    requires ls[n].licence.Bootstrapping? && ls[n].licence.last.Some?
    ensures LastAnswer(t, b, j, n) && t[j].answer == ls[n].licence.last.value
    decreases n
  {
    assert Step(cfg, t, ls, n - 1);
    if t[n - 1].AskedPeer? {
      if b < n - 1 { BootStep(cfg, ls[n - 1], t[n - 1], ls[n]); }
      j := n - 1;
    } else {
      assert b < n - 1;
      BootStep(cfg, ls[n - 1], t[n - 1], ls[n]);
      j := BootLastAnswer(cfg, t, ls, b, n - 1);
    }
  }

  lemma BootHistory(cfg: Config, t: seq<Event>, ls: seq<Life>, n: nat) returns (b: nat, j: nat)
    requires Run(cfg, t, ls) && n <= |t| && ls[n].licence.Bootstrapping?
    ensures Booting(t, b, n)
    ensures !ls[n].licence.sawPrimary <==> NoPrimary(t, b, n)
    ensures ls[n].licence.ran <==> Initialised(t, b, n)
    ensures ls[n].licence.last.Some? ==> LastAnswer(t, b, j, n) && t[j].answer == ls[n].licence.last.value
  {
    j := 0;
    b := BootHasBegun(cfg, t, ls, n);
    BootRemembers(cfg, t, ls, b, n);
    if ls[n].licence.last.Some? { j := BootLastAnswer(cfg, t, ls, b, n); }
  }

  /** initdb has run since `b`. */
  ghost predicate Initialised(t: seq<Event>, b: nat, n: nat)
    requires n <= |t|
  {
    exists i :: b < i < n && t[i].InitdbRan?
  }

  /** initdb is run only by a node that may found the cluster, and unless forced only in
      a bootstrap that has asked its peer and never been told it was primary. */
  lemma InitdbIsLicensed(cfg: Config, t: seq<Event>, ls: seq<Life>, i: nat) returns (b: nat, j: nat)
    requires Run(cfg, t, ls) && i < |t| && t[i].InitdbRan?
    ensures Founder(cfg) && Booting(t, b, i)
    ensures cfg.bootstrap.AutoRole? ==> NoPrimary(t, b, i)
    ensures cfg.bootstrap.AutoRole? && cfg.peerHost != "" ==> LastAnswer(t, b, j, i)
  {
    assert Step(cfg, t, ls, i);
    b, j := BootHistory(cfg, t, ls, i);
  }

  /** Every bootstrap that returns has run initdb if and only if the node may found the cluster and, unless
      forced, was never told in it that the peer was primary. */
  lemma BootstrapInitialisesExactly(cfg: Config, t: seq<Event>, ls: seq<Life>, e: nat) returns (b: nat)
    requires Run(cfg, t, ls) && e < |t| && t[e].BootstrapEnded?
    ensures Booting(t, b, e)
    ensures Initialised(t, b, e) <==> Founder(cfg) && (cfg.bootstrap.AutoRole? ==> NoPrimary(t, b, e))
  {
    assert Step(cfg, t, ls, e);
    var j;
    b, j := BootHistory(cfg, t, ls, e);
  }

  /** Some run of the process creates a cluster. */
  ghost predicate CanInitdb(cfg: Config) {
    exists t: seq<Event>, ls: seq<Life> :: Run(cfg, t, ls) && InitdbRan in t
  }

  /** How many rounds the tiebreak's fifteen seconds take when every status query runs into its two-second
      limit and every pause lasts one. */
  const Rounds: nat := 6

  function Asking(asked: nat): Life {
    Birth.(licence := Bootstrapping(false, if asked == 0 then None else Some(Unreachable), false))
  }

  /** A founder's first start: it asks as often as its bootstrap does, if it asks at all, and runs initdb. */
  lemma FounderInitialises(cfg: Config) returns (t: seq<Event>, ls: seq<Life>)
    requires Founder(cfg)
    ensures Run(cfg, t, ls) && |t| > 3 && t[|t| - 3..] == [InitdbRan, Ran(Initdb, true), BootstrapEnded(true)]
    ensures t[..|t| - 3] == [BootstrapBegan] +
      seq(if cfg.bootstrap.AutoRole? && cfg.peerHost != "" then Rounds else 0, _ => AskedPeer(Unreachable))
  {
    var rounds := if cfg.bootstrap.AutoRole? && cfg.peerHost != "" then Rounds else 0;
    var asks := seq(rounds, _ => AskedPeer(Unreachable));
    var done := Asking(rounds).(licence := Asking(rounds).licence.(ran := true));
    t := [BootstrapBegan] + asks + [InitdbRan, Ran(Initdb, true), BootstrapEnded(true)];
    ls := [Birth] + seq(rounds + 1, i requires 0 <= i => Asking(i)) + [done, done, Birth];
    forall i | 0 <= i < |t| ensures Step(cfg, t, ls, i) {
      if 1 <= i <= rounds { assert t[i] == asks[i - 1]; }
    }
    assert t[|t| - 3..] == [InitdbRan, Ran(Initdb, true), BootstrapEnded(true)];
    assert t[..|t| - 3] == [BootstrapBegan] + asks;
  }

  lemma CanInitdbExactly(cfg: Config)
    ensures CanInitdb(cfg) <==> Founder(cfg)
  {
    if CanInitdb(cfg) {
      var t, ls :| Run(cfg, t, ls) && InitdbRan in t;
      var i :| 0 <= i < |t| && t[i] == InitdbRan;
      var b, j := InitdbIsLicensed(cfg, t, ls, i);
    }
    if Founder(cfg) {
      var t, ls := FounderInitialises(cfg);
      assert t[|t| - 3..][0] == InitdbRan;
      assert t[|t| - 3] == InitdbRan;
    }
  }

  /** Of a derived pair in auto mode exactly one node can ever run initdb, so no two
      runs of the two nodes both do. */
  lemma ExactlyOneNodeCanInitdb(a: Config, b: Config, hostname: string)
    requires a.bootstrap.AutoRole? && b.bootstrap.AutoRole?
    requires a.hostname == Some(hostname) && DerivePeerHost(hostname) == Some(a.peerHost)
    requires b.hostname == Some(a.peerHost) && DerivePeerHost(a.peerHost) == Some(b.peerHost)
    ensures CanInitdb(a) <==> !CanInitdb(b)
  {
    DerivationIsAnInvolution(hostname);
    ExactlyOneOrdinalZero(hostname);
    CanInitdbExactly(a);
    CanInitdbExactly(b);
  }

  /** The tiebreak is one of names: of two nodes whose peers are configured by hand, both
      can run initdb exactly when neither name ends in -1. */
  lemma HandMadePairsMayBothInitdb(a: Config, b: Config)
    requires a.bootstrap.AutoRole? && b.bootstrap.AutoRole?
    requires a.peerHost != "" && b.peerHost != "" && a.hostname.Some? && b.hostname.Some?
    ensures CanInitdb(a) && CanInitdb(b) <==>
      !HasSuffix(a.hostname.value, "-1") && !HasSuffix(b.hostname.value, "-1")
  {
    CanInitdbExactly(a);
    CanInitdbExactly(b);
  }

  // ---------------------------------------------------------- promotion requests

  lemma {:induction false} StopHasEvent(cfg: Config, t: seq<Event>, ls: seq<Life>, n: nat) returns (j: nat)
    requires Run(cfg, t, ls)
    requires n <= |t| && ls[n].up.None? && ls[n].ended.ByStop?
    ensures j < n && t[j].Stopped?
    ensures forall k :: j < k < n ==> !t[k].Started? && !t[k].Stopped?
  {
    assert Step(cfg, t, ls, n - 1);
    if t[n - 1].Stopped? {
      j := n - 1;
    } else {
      assert !t[n - 1].Started? && ls[n - 1].up.None? && ls[n - 1].ended.ByStop?;
      j := StopHasEvent(cfg, t, ls, n - 1);
    }
  }

  lemma {:induction false} RoleHasEvent(cfg: Config, t: seq<Event>, ls: seq<Life>, n: nat) returns (j: nat)
    requires Run(cfg, t, ls)
    requires n <= |t| && ls[n].role.Some?
    ensures j < n && t[j] == AskedRole(ls[n].role.value)
    ensures forall k :: j < k < n ==> !t[k].AskedRole?
  {
    assert Step(cfg, t, ls, n - 1);
    if t[n - 1].AskedRole? {
      j := n - 1;
    } else {
      j := RoleHasEvent(cfg, t, ls, n - 1);
    }
  }

  /** A promote request is sent only after a completed stop with no start since,
      and only by a node whose last role check did not say standby. */
  lemma PromotesFollowStops(cfg: Config, t: seq<Event>, ls: seq<Life>, i: nat) returns (j: nat, r: nat)
    requires Run(cfg, t, ls)
    requires i < |t| && t[i].PromoteSent?
    ensures j < i && t[j].Stopped? && forall k :: j < k < i ==> !t[k].Started?
    ensures r < i && t[r].AskedRole? && t[r].recovery != InRecovery && forall k :: r < k < i ==> !t[k].AskedRole?
  {
    assert Step(cfg, t, ls, i);
    j := StopHasEvent(cfg, t, ls, i);
    r := RoleHasEvent(cfg, t, ls, i);
  }

  /** PGDATA is never cleared while a child that was started is unaccounted for. */
  lemma WipesFindNoChild(cfg: Config, t: seq<Event>, ls: seq<Life>, i: nat)
    requires Run(cfg, t, ls)
    requires i < |t| && t[i].Wiped? && !ls[i].leaving
    ensures Count(t, i, AStart) == Count(t, i, ACrash) + Count(t, i, AStop)
  {
    assert Step(cfg, t, ls, i);
    ExitsAreAttributed(cfg, t, ls, i);
  }

  /** PGDATA is cleared only after a port check of its own that found nothing listening. */
  lemma WipesFollowFreePort(cfg: Config, t: seq<Event>, ls: seq<Life>, i: nat) returns (j: nat)
    requires Run(cfg, t, ls)
    requires i < |t| && t[i].Wiped?
    ensures j < i && t[j] == Ran(PortCheck, true)
    ensures forall k :: j < k < i ==> !t[k].Wiped? && t[k] != Ran(PortCheck, false)
  {
    assert Step(cfg, t, ls, i);
    j := FreePortHasCheck(cfg, t, ls, i);
  }

  lemma {:induction false} FreePortHasCheck(cfg: Config, t: seq<Event>, ls: seq<Life>, n: nat) returns (j: nat)
    requires Run(cfg, t, ls) && n <= |t| && ls[n].portFree
    ensures j < n && t[j] == Ran(PortCheck, true)
    ensures forall k :: j < k < n ==> !t[k].Wiped? && t[k] != Ran(PortCheck, false)
  {
    assert Step(cfg, t, ls, n - 1);
    if t[n - 1] == Ran(PortCheck, true) { j := n - 1; } else { j := FreePortHasCheck(cfg, t, ls, n - 1); }
  }

  // ---------------------------------------------------------------- crash budget

  /** The crashes among the first `n` events that fall after `cutoff`. */
  function CrashesAfter(t: seq<Event>, n: nat, cutoff: int): set<nat>
    requires n <= |t|
  {
    set j: nat | j < n && t[j].Crashed? && t[j].at > cutoff
  }

  lemma {:induction false} CrashesAreRecorded(cfg: Config, t: seq<Event>, ls: seq<Life>, n: nat, cutoff: int)
    requires Run(cfg, t, ls) && n <= |t|
    ensures |After(ls[n].crashes, cutoff)| == |CrashesAfter(t, n, cutoff)|
  {
    if n > 0 {
      CrashesGrow(cfg, t, ls, n - 1);
      CrashesAreRecorded(cfg, t, ls, n - 1, cutoff);
      OneMoreCrash(t, n - 1, cutoff);
      if t[n - 1].Crashed? { AfterSnoc(ls[n - 1].crashes, t[n - 1].at, cutoff); }
    }
  }

  lemma OneMoreCrash(t: seq<Event>, n: nat, cutoff: int)
    requires n < |t|
    ensures |CrashesAfter(t, n + 1, cutoff)| ==
      |CrashesAfter(t, n, cutoff)| + if t[n].Crashed? && t[n].at > cutoff then 1 else 0
  {
    var before, after := CrashesAfter(t, n, cutoff), CrashesAfter(t, n + 1, cutoff);
    assert after == if t[n].Crashed? && t[n].at > cutoff then before + {n} else before;
  }

  /** On every run a crash is answered with a restart if and only if restarts are enabled and the crashes up
      to and including it that fall within the window are no more than the limit. */
  lemma RestartsExactly(cfg: Config, t: seq<Event>, ls: seq<Life>, i: nat)
    requires Run(cfg, t, ls) && i < |t| && t[i].Crashed?
    ensures t[i].rearmed <==>
      cfg.restartLimit > 0 && |CrashesAfter(t, i + 1, t[i].at - cfg.restartWindow)| <= cfg.restartLimit
  {
    CrashesGrow(cfg, t, ls, i);
    CrashesAreRecorded(cfg, t, ls, i + 1, t[i].at - cfg.restartWindow);
  }

  /** How many automatic restarts were armed by crashes in the interval (x, y]. */
  function Rearmed(t: seq<Event>, n: nat, x: int, y: int): nat
    requires n <= |t|
  {
    if n == 0 then 0
    else
      var e := t[n - 1];
      Rearmed(t, n - 1, x, y) + if e.Crashed? && e.rearmed && x < e.at <= y then 1 else 0
  }

  lemma {:induction false} AfterIsMonotone(ts: seq<int>, low: int, high: int)
    requires low <= high
    ensures |After(ts, high)| <= |After(ts, low)|
  {
    if ts != [] { AfterIsMonotone(ts[..|ts| - 1], low, high); }
  }

  lemma AfterSnoc(ts: seq<int>, t: int, cutoff: int)
    ensures After(ts + [t], cutoff) == After(ts, cutoff) + (if t > cutoff then [t] else [])
  {
    assert (ts + [t])[..|ts|] == ts;
  }

  lemma CrashesGrow(cfg: Config, t: seq<Event>, ls: seq<Life>, i: nat)
    requires Run(cfg, t, ls) && i < |t|
    ensures ls[i + 1].crashes == if t[i].Crashed? then ls[i].crashes + [t[i].at] else ls[i].crashes
    ensures t[i].Crashed? ==> t[i].rearmed == WithinBudget(cfg, ls[i].crashes, t[i].at)
  {
    assert Step(cfg, t, ls, i);
  }

  lemma {:induction false} RearmedAreCrashes(cfg: Config, t: seq<Event>, ls: seq<Life>, n: nat, x: int, y: int)
    requires Run(cfg, t, ls) && n <= |t|
    ensures Rearmed(t, n, x, y) <= |After(ls[n].crashes, x)|
  {
    if n > 0 {
      CrashesGrow(cfg, t, ls, n - 1);
      RearmedAreCrashes(cfg, t, ls, n - 1, x, y);
      if t[n - 1].Crashed? { AfterSnoc(ls[n - 1].crashes, t[n - 1].at, x); }
    }
  }

  /** In every interval as long as the window, wherever it lies, at most
      PostgresRestartLimit automatic restarts are armed. */
  lemma {:induction false} RestartsStayWithinBudget(cfg: Config, t: seq<Event>, ls: seq<Life>, n: nat, x: int)
    requires Run(cfg, t, ls) && n <= |t|
    ensures Rearmed(t, n, x, x + cfg.restartWindow) <= cfg.restartLimit
  {
    if n > 0 {
      var e := t[n - 1];
      RestartsStayWithinBudget(cfg, t, ls, n - 1, x);
      if e.Crashed? && e.rearmed && x < e.at <= x + cfg.restartWindow {
        CrashesGrow(cfg, t, ls, n - 1);
        RearmedAreCrashes(cfg, t, ls, n, x, x + cfg.restartWindow);
        AfterIsMonotone(ls[n].crashes, e.at - cfg.restartWindow, x);
      }
    }
  }
}
