/** The two-node protocol as a step system: every goroutine of either node that
    can start, stop or promote a postgres is a source of steps, and steps of the
    two nodes interleave freely.  What the deployment is trusted to do is a
    record of six hypotheses, and each of them only ever removes steps. */
module Cluster {
  import opened Types

  /** The postgres process running on a node's PGDATA, with the role it answers to. */
  datatype Postgres = Down | AsPrimary | AsStandby

  /** Where the main goroutine of one pg-guard process is. */
  datatype Main =
    | Off                                                // no process
    | Deciding                                           // startPostgres, before its peer answer
    | Cleared                                            // the peer answered non-primary, sup.start comes next
    | Idle                                               // in the select of the main loop
    | Rejoining                                          // POST /api/rejoin, inside rejoinAsStandby
    | RoleChecked(policy: Policy, asPrimary: bool)       // coordinateHandover, local role known
    | ReadyToStop(policy: Policy, handOff: bool)         // peer check passed or waived
    | Stopped(policy: Policy)                            // stopLocal returned nil, promote not yet requested
    | Awaiting(policy: Policy)                           // requestPeerPromote in flight
    | Confirming(policy: Policy)                         // polling the peer's /status

  /** `child` is currentChild != nil; `promoters` counts goroutines (promote
      handlers, the failover monitor) past their peer check with pg_promote still
      to come; `forced` is the peer's forced promote request being served here. */
  datatype Node = Node(main: Main, data: PgData, pg: Postgres, child: bool, promoters: nat, forced: bool)

  datatype Cluster = Cluster(a: Node, b: Node)

  datatype Hypotheses = Hypotheses(
    unreachableIsLost: bool,      // an unreachable peer has no postgres running
    noRacingChecks: bool,         // no node turns primary while its peer is about to act on an answer it has read
    statusIsTruthful: bool,       // /status never says "unknown" while a primary runs
    noOperatorForce: bool,        // nobody calls POST /api/promote?force=true by hand
    promoteEndsWithCaller: bool,  // a handover's promote request is over once its caller moves on or dies
    stopsAreConfirmed: bool)      // stopLocal reports success only for a child that has exited

  const All := Hypotheses(true, true, true, true, true, true)

  datatype Action =
    | Boot | Die(leak: bool)
    | Initdb | Clone(result: PgData) | AskAtStart(a: Answer) | StartCleared | StartAsStandby | GiveUp
    | Resume | BeginRejoin
    | ChildDies | NoticeCrash
    | BeginHandover(policy: Policy, role: Recovery) | BeginReboot(policy: Policy, role: Recovery) | AskPeer(a: Answer)
    | StopChild(confirmed: bool) | StopFails
    | SendPromote(sent: bool) | ServeForced(ok: bool) | PromoteReturns(ok: bool, leak: bool) | Confirm
    | MonitorAsks(a: Answer) | HandlerAsks(a: Answer) | Promote(ok: bool) | OperatorForce

  predicate IsPrimary(n: Node) { n.pg.AsPrimary? }

  predicate SplitBrain(c: Cluster) { IsPrimary(c.a) && IsPrimary(c.b) }

  /** A peer answer has been read and the start or promotion it permits has not happened yet. */
  predicate Pending(n: Node) { n.main.Cleared? || n.promoters > 0 }

  predicate PastStop(m: Main) { m.Stopped? || m.Awaiting? || m.Confirming? }

  /** Which answers a status request to `peer` can get. */
  predicate CanAnswer(h: Hypotheses, peer: Node, a: Answer) {
    match a
    case Unreachable => h.unreachableIsLost ==> peer.pg.Down?
    case Role(PrimaryRole) => peer.pg.AsPrimary?
    case Role(StandbyRole) => peer.pg.AsStandby?
    case Role(UnknownRole) => !peer.main.Off? && (h.statusIsTruthful ==> !IsPrimary(peer))
  }

  /** Which answers isInRecovery can get: it fails at will, but does not lie. */
  predicate CanQuery(me: Node, r: Recovery) {
    match r
    case QueryFailed => true
    case InRecovery => me.pg.AsStandby?
    case NotInRecovery => me.pg.AsPrimary?
  }

  predicate Enabled(h: Hypotheses, me: Node, peer: Node, act: Action) {
    match act
    case Boot => me.main.Off?
    case Die(leak) => !me.main.Off? && (leak ==> !h.promoteEndsWithCaller)
    case Initdb => me.main.Deciding? && me.data.Empty?
    case Clone(_) => me.main.Deciding? || me.main.Rejoining?
    case AskAtStart(a) => me.main.Deciding? && CanAnswer(h, peer, a)
    case StartCleared => me.main.Cleared?
    case StartAsStandby => (me.main.Deciding? || me.main.Rejoining?) && me.data.Standby?
    case GiveUp => me.main.Deciding? || me.main.Rejoining?
    case Resume => me.main.Idle? && !me.child
    case BeginRejoin => me.main.Idle? && !me.child
    case ChildDies => !me.pg.Down?
    case NoticeCrash => me.main.Idle? && me.child && me.pg.Down?
    case BeginHandover(_, role) => me.main.Idle? && me.child && CanQuery(me, role)
    case BeginReboot(_, role) => me.main.Idle? && me.child && CanQuery(me, role)
    case AskPeer(a) => me.main.RoleChecked? && CanAnswer(h, peer, a)
    case StopChild(confirmed) => me.main.ReadyToStop? && (h.stopsAreConfirmed ==> confirmed)
    case StopFails => me.main.ReadyToStop?
    case SendPromote(sent) => me.main.Stopped? && (sent ==> !peer.main.Off?)
    case ServeForced(ok) => me.forced && (ok ==> me.pg.AsStandby?)
    case PromoteReturns(_, leak) => me.main.Awaiting? && (leak ==> !h.promoteEndsWithCaller)
    case Confirm => me.main.Confirming?
    case MonitorAsks(a) => me.pg.AsStandby? && !me.main.Off? && CanAnswer(h, peer, a)
    case HandlerAsks(a) => !me.main.Off? && CanAnswer(h, peer, a)
    case Promote(ok) => me.promoters > 0 && (ok ==> me.pg.AsStandby?)
    case OperatorForce => !me.main.Off? && !h.noOperatorForce
  }

  /** sup.start: a second postgres on a PGDATA that is still open does not come up, nor
      does one on an empty directory, which a failed re-clone may have left behind. */
  function Launch(n: Node): Node {
    var pg := if !n.pg.Down? || n.data.Empty? then n.pg else if n.data.Standby? then AsStandby else AsPrimary;
    n.(main := Idle, pg := pg, child := true)
  }

  /** pg_promote, when it takes effect, also removes standby.signal. */
  function Promoted(n: Node, ok: bool): Node {
    if ok then n.(pg := AsPrimary, data := Writable) else n
  }

  function PeerCheck(main: Main, a: Answer): Main
    requires main.RoleChecked?
  {
    var wanted := if main.asPrimary then StandbyRole else PrimaryRole;
    if a != Role(wanted) && main.policy.RequireSwitchover? then Idle
    else ReadyToStop(main.policy, main.asPrimary)
  }

  /** The two nodes after `act` on `me`; only Die, SendPromote and PromoteReturns reach the peer. */
  function Apply(h: Hypotheses, me: Node, peer: Node, act: Action): (Node, Node)
    requires Enabled(h, me, peer, act)
  {
    match act
    case Boot => (me.(main := Deciding, child := false), peer)
    case Die(leak) => (Node(Off, me.data, Down, false, 0, false), peer.(forced := peer.forced && leak))
    case Initdb => (me.(data := Writable), peer)
    case Clone(result) => (me.(data := result), peer)
    case AskAtStart(a) => (if a.Role? && !a.role.PrimaryRole? then me.(main := Cleared) else me, peer)
    case StartCleared => (Launch(me), peer)
    case StartAsStandby => (Launch(me), peer)
    case GiveUp => (me.(main := Idle), peer)
    case Resume => (me.(main := Deciding), peer)
    case BeginRejoin => (me.(main := Rejoining), peer)
    case ChildDies => (me.(pg := Down), peer)
    case NoticeCrash => (me.(child := false), peer)
    case BeginHandover(policy, role) =>
      var next := if policy.Force? then ReadyToStop(policy, false) else RoleChecked(policy, !role.InRecovery?);
      (me.(main := next), peer)
    case BeginReboot(policy, role) =>
      var next := if role.InRecovery? then RoleChecked(policy, false) else ReadyToStop(policy, false);
      (me.(main := next), peer)
    case AskPeer(a) => (me.(main := PeerCheck(me.main, a)), peer)
    case StopChild(confirmed) =>
      var next := if me.main.handOff then Stopped(me.main.policy) else Idle;
      (me.(main := next, child := false, pg := if confirmed then Down else me.pg), peer)
    case StopFails => (me.(main := Idle), peer)
    case SendPromote(sent) => (me.(main := Awaiting(me.main.policy)), peer.(forced := peer.forced || sent))
    case ServeForced(ok) => (Promoted(me, ok).(forced := false), peer)
    case PromoteReturns(ok, leak) =>
      (me.(main := if ok then Confirming(me.main.policy) else Idle), peer.(forced := peer.forced && leak))
    case Confirm => (me.(main := Idle), peer)
    case MonitorAsks(a) => (if a.Unreachable? then me.(promoters := me.promoters + 1) else me, peer)
    case HandlerAsks(a) => (if a != Role(PrimaryRole) then me.(promoters := me.promoters + 1) else me, peer)
    case Promote(ok) => (Promoted(me, ok).(promoters := me.promoters - 1), peer)
    case OperatorForce => (me.(promoters := me.promoters + 1), peer)
  }

  datatype Move = OnA(act: Action) | OnB(act: Action)

  /** The step turns the node into a primary. */
  predicate Elevates(h: Hypotheses, me: Node, peer: Node, act: Action)
    requires Enabled(h, me, peer, act)
  {
    !IsPrimary(me) && IsPrimary(Apply(h, me, peer, act).0)
  }

  /** Without racing checks such a step waits while the peer is between an answer and the step it
      permits; everything else stays free to interleave. */
  predicate Allowed(h: Hypotheses, c: Cluster, m: Move) {
    var (me, peer) := if m.OnA? then (c.a, c.b) else (c.b, c.a);
    && Enabled(h, me, peer, m.act)
    && (h.noRacingChecks && Pending(peer) ==> !Elevates(h, me, peer, m.act))
  }

  function Moved(h: Hypotheses, c: Cluster, m: Move): Cluster
    requires Allowed(h, c, m)
  {
    if m.OnA? then
      var (a, b) := Apply(h, c.a, c.b, m.act); Cluster(a, b)
    else
      var (b, a) := Apply(h, c.b, c.a, m.act); Cluster(a, b)
  }

  /** The cluster after a whole schedule, or None if some move of it was not allowed. */
  function Exec(h: Hypotheses, c: Cluster, moves: seq<Move>): Option<Cluster>
    decreases |moves|
  {
    if moves == [] then Some(c)
    else if Allowed(h, c, moves[0]) then Exec(h, Moved(h, c, moves[0]), moves[1..])
    else None
  }

  function Fresh(data: PgData): Node { Node(Off, data, Down, false, 0, false) }

  /** Both processes down, any two data directories. */
  predicate Initial(c: Cluster) { c == Cluster(Fresh(c.a.data), Fresh(c.b.data)) }

  ghost predicate Reachable(h: Hypotheses, d: Cluster) {
    exists c: Cluster, moves: seq<Move> :: Initial(c) && Exec(h, c, moves) == Some(d)
  }

  /** No schedule from any initial cluster ever has two running primaries. */
  ghost predicate SafeOnEveryRun(h: Hypotheses) {
    forall d: Cluster | Reachable(h, d) :: !SplitBrain(d)
  }

  // ------------------------------------------------- safety under all hypotheses

  ghost predicate NodeOk(me: Node, peer: Node) {
    && (!me.pg.Down? ==> me.child)
    && (me.child ==> me.main.Idle? || me.main.RoleChecked? || me.main.ReadyToStop?)
    && (me.forced ==> peer.main.Awaiting?)
    && (Pending(me) ==> !IsPrimary(peer) && !me.main.Off?)
  }

  ghost predicate Inv(me: Node, peer: Node) {
    && NodeOk(me, peer) && NodeOk(peer, me)
    && !(IsPrimary(me) && IsPrimary(peer))
  }

  /** Every allowed step keeps the invariant, seen from the node that takes it. */
  lemma StepKeepsInv(me: Node, peer: Node, act: Action)
    requires Inv(me, peer)
    requires Enabled(All, me, peer, act)
    requires Pending(peer) ==> !Elevates(All, me, peer, act)
    ensures var (me', peer') := Apply(All, me, peer, act); Inv(me', peer')
  {
  }

  lemma {:induction false} ExecKeepsInv(c: Cluster, moves: seq<Move>)
    requires Inv(c.a, c.b)
    requires Exec(All, c, moves).Some?
    ensures var d := Exec(All, c, moves).value; Inv(d.a, d.b)
    decreases |moves|
  {
    if moves != [] {
      var m := moves[0];
      if m.OnA? { StepKeepsInv(c.a, c.b, m.act); } else { StepKeepsInv(c.b, c.a, m.act); }
      ExecKeepsInv(Moved(All, c, m), moves[1..]);
    }
  }

  lemma ReachableInv(d: Cluster)
    requires Reachable(All, d)
    ensures Inv(d.a, d.b)
  {
    var c, moves :| Initial(c) && Exec(All, c, moves) == Some(d);
    ExecKeepsInv(c, moves);
  }

  predicate Starts(act: Action) { act.StartCleared? || act.StartAsStandby? || act.Resume? || act.BeginRejoin? }

  /** On every run a handover past its stop has its own postgres down, and its main
      goroutine can neither start one nor begin to; a forced promotion is being
      served only while that is so of the node that asked for it. */
  lemma HandoverKeepsCallerDown(d: Cluster, onA: bool, act: Action)
    requires Reachable(All, d)
    requires var (me, peer) := Sides(d, onA); PastStop(me.main) || peer.forced
    ensures var (me, peer) := Sides(d, onA);
      me.pg.Down? && !me.child && (Starts(act) ==> !Enabled(All, me, peer, act))
  {
    ReachableInv(d);
  }

  function Sides(d: Cluster, onA: bool): (Node, Node) { if onA then (d.a, d.b) else (d.b, d.a) }

  // ------------------------------------- each hypothesis is needed: witness runs

  /** A set of clusters that contains the initial ones and is closed under allowed moves. */
  ghost predicate Closed(h: Hypotheses, r: iset<Cluster>) {
    && (forall c: Cluster | Initial(c) :: c in r)
    && (forall c: Cluster, m: Move {:trigger Moved(h, c, m)} | c in r && Allowed(h, c, m) :: Moved(h, c, m) in r)
  }

  /** The reachable clusters are such a set, so a witness run may work in any of them. */
  lemma ReachableIsClosed(h: Hypotheses) returns (r: iset<Cluster>)
    ensures r == iset d: Cluster | Reachable(h, d)
    ensures Closed(h, r)
  {
    r := iset d: Cluster | Reachable(h, d);
    forall c: Cluster | Initial(c) ensures c in r {
      assert Exec(h, c, []) == Some(c);
    }
    forall c: Cluster, m: Move | c in r && Allowed(h, c, m) ensures Moved(h, c, m) in r {
      var start, moves :| Initial(start) && Exec(h, start, moves) == Some(c);
      ExecSnoc(h, start, moves, m);
      assert Exec(h, start, moves + [m]) == Some(Moved(h, c, m));
    }
  }

  lemma {:induction false} ExecSnoc(h: Hypotheses, c: Cluster, moves: seq<Move>, m: Move)
    requires Exec(h, c, moves).Some?
    requires Allowed(h, Exec(h, c, moves).value, m)
    ensures Exec(h, c, moves + [m]) == Some(Moved(h, Exec(h, c, moves).value, m))
    decreases |moves|
  {
    if moves == [] {
      assert moves + [m] == [m];
      assert [m][1..] == [];
      assert Exec(h, Moved(h, c, m), []) == Some(Moved(h, c, m));
    } else {
      assert (moves + [m])[1..] == moves[1..] + [m];
      ExecSnoc(h, Moved(h, c, moves[0]), moves[1..], m);
    }
  }

  /** One move of a witness run, with both nodes spelled out afterwards. */
  lemma Go(h: Hypotheses, r: iset<Cluster>, c: Cluster, m: Move, d: Cluster)
    requires Closed(h, r) && c in r
    requires Allowed(h, c, m) && Moved(h, c, m) == d
    ensures d in r
  {
  }

  function Booted(data: PgData): Node { Node(Deciding, data, Down, false, 0, false) }
  function Ready(data: PgData): Node { Node(Cleared, data, Down, false, 0, false) }

  const Serving := Node(Idle, Writable, AsPrimary, true, 0, false)
  const Following := Node(Idle, Standby, AsStandby, true, 0, false)
  const Formed := Cluster(Serving, Following)

  /** From two empty data directories, under any hypotheses, the cluster can form. */
  lemma ClusterForms(h: Hypotheses, r: iset<Cluster>)
    requires Closed(h, r)
    ensures Formed in r
  {
    assert Initial(Cluster(Fresh(Empty), Fresh(Empty)));
    Go(h, r, Cluster(Fresh(Empty), Fresh(Empty)), OnA(Boot), Cluster(Booted(Empty), Fresh(Empty)));
    Go(h, r, Cluster(Booted(Empty), Fresh(Empty)), OnB(Boot), Cluster(Booted(Empty), Booted(Empty)));
    Go(h, r, Cluster(Booted(Empty), Booted(Empty)), OnA(Initdb), Cluster(Booted(Writable), Booted(Empty)));
    StartsBesideIdlePeer(h, r, Booted(Empty));
    Go(h, r, Cluster(Serving, Booted(Empty)), OnB(Clone(Standby)), Cluster(Serving, Booted(Standby)));
    Go(h, r, Cluster(Serving, Booted(Standby)), OnB(StartAsStandby), Formed);
  }

  /** A node with writable data starts as primary next to a peer process without a postgres. */
  lemma StartsBesideIdlePeer(h: Hypotheses, r: iset<Cluster>, b: Node)
    requires Closed(h, r) && Cluster(Booted(Writable), b) in r
    requires b == Booted(b.data)
    ensures Cluster(Serving, b) in r
  {
    Go(h, r, Cluster(Booted(Writable), b), OnA(AskAtStart(Role(UnknownRole))), Cluster(Ready(Writable), b));
    Go(h, r, Cluster(Ready(Writable), b), OnA(StartCleared), Cluster(Serving, b));
  }

  /** The standby of the formed cluster is promoted once its primary's process is gone. */
  lemma FailoverHappens(h: Hypotheses, r: iset<Cluster>)
    requires Closed(h, r)
    ensures Cluster(Fresh(Writable), Serving) in r
  {
    ClusterForms(h, r);
    Go(h, r, Formed, OnA(Die(false)), Cluster(Fresh(Writable), Following));
    var told := Following.(promoters := 1);
    Go(h, r, Cluster(Fresh(Writable), Following), OnB(MonitorAsks(Unreachable)), Cluster(Fresh(Writable), told));
    Go(h, r, Cluster(Fresh(Writable), told), OnB(Promote(true)), Cluster(Fresh(Writable), Serving));
  }

  /** A failover, then both processes down and up again, leaves two writable data
      directories and no postgres running: the state the startup check must survive. */
  lemma TwoWritable(h: Hypotheses, r: iset<Cluster>)
    requires Closed(h, r)
    ensures Cluster(Booted(Writable), Booted(Writable)) in r
  {
    FailoverHappens(h, r);
    Go(h, r, Cluster(Fresh(Writable), Serving), OnB(Die(false)), Cluster(Fresh(Writable), Fresh(Writable)));
    Go(h, r, Cluster(Fresh(Writable), Fresh(Writable)), OnA(Boot), Cluster(Booted(Writable), Fresh(Writable)));
    Go(h, r, Cluster(Booted(Writable), Fresh(Writable)), OnB(Boot), Cluster(Booted(Writable), Booted(Writable)));
  }

  // ------------------------- what the steps are for: runs that need no hypothesis dropped

  /** A process that is up with no postgres, on this data. */
  function Halted(data: PgData): Node { Node(Idle, data, Down, false, 0, false) }

  /** An unforced promote request on the standby takes effect when the other process is gone, ... */
  lemma PromoteBesideLostPeer(h: Hypotheses, r: iset<Cluster>)
    requires Closed(h, r)
    ensures Cluster(Fresh(Writable), Serving) in r
  {
    ClusterForms(h, r);
    var told := Following.(promoters := 1);
    Go(h, r, Formed, OnA(Die(false)), Cluster(Fresh(Writable), Following));
    Go(h, r, Cluster(Fresh(Writable), Following), OnB(HandlerAsks(Unreachable)), Cluster(Fresh(Writable), told));
    Go(h, r, Cluster(Fresh(Writable), told), OnB(Promote(true)), Cluster(Fresh(Writable), Serving));
  }

  /** ... and when the peer is up without a postgres and answers "unknown". */
  lemma PromoteBesideStoppedPeer(h: Hypotheses, r: iset<Cluster>)
    requires Closed(h, r)
    ensures Cluster(Halted(Writable), Serving) in r
  {
    ForcedStop(h, r);
    var told := Following.(promoters := 1);
    Go(h, r, Cluster(Halted(Writable), Following), OnB(HandlerAsks(Role(UnknownRole))),
      Cluster(Halted(Writable), told));
    Go(h, r, Cluster(Halted(Writable), told), OnB(Promote(true)), Cluster(Halted(Writable), Serving));
  }

  /** Which answers admit a promotion: for the promote handler every one but "primary", for the failover monitor
      only silence; any other answer leaves the node as it was. */
  lemma AnswersAdmitExactly(h: Hypotheses, me: Node, peer: Node, a: Answer)
    requires CanAnswer(h, peer, a) && me.pg.AsStandby? && !me.main.Off?
    ensures var asked := Apply(h, me, peer, HandlerAsks(a)).0;
      if a == Role(PrimaryRole) then asked == me else Enabled(h, asked, peer, Promote(true))
    ensures var asked := Apply(h, me, peer, MonitorAsks(a)).0;
      if a.Role? then asked == me else Enabled(h, asked, peer, Promote(true))
  {
  }

  /** Whatever admitted it, a promotion that takes effect makes a standby a writable primary. */
  lemma PromotionPromotes(h: Hypotheses, me: Node, peer: Node)
    requires me.pg.AsStandby?
    ensures me.promoters > 0 ==>
      Apply(h, me, peer, Promote(true)).0 == me.(pg := AsPrimary, data := Writable, promoters := me.promoters - 1)
    ensures me.forced ==>
      Apply(h, me, peer, ServeForced(true)).0 == me.(pg := AsPrimary, data := Writable, forced := false)
  {
  }

  /** Under force a stop needs nobody's answer. */
  lemma ForcedStop(h: Hypotheses, r: iset<Cluster>)
    requires Closed(h, r)
    ensures Cluster(Halted(Writable), Following) in r
  {
    ClusterForms(h, r);
    var ready := Serving.(main := ReadyToStop(Force, false));
    Go(h, r, Formed, OnA(BeginHandover(Force, QueryFailed)), Cluster(ready, Following));
    Go(h, r, Cluster(ready, Following), OnA(StopChild(true)), Cluster(Halted(Writable), Following));
  }

  /** The coordinated handover runs to its end: the primary stopped, its peer promoted and seen so. */
  lemma HandoverCompletes(h: Hypotheses, r: iset<Cluster>)
    requires Closed(h, r)
    ensures Cluster(Halted(Writable), Serving) in r
  {
    HandoverAsks(h, r, true);
    var confirming := Caller(true).(main := Confirming(RequireSwitchover));
    Go(h, r, Cluster(Caller(true), Asked), OnB(ServeForced(true)), Cluster(Caller(true), Serving));
    Go(h, r, Cluster(Caller(true), Serving), OnA(PromoteReturns(true, false)), Cluster(confirming, Serving));
    Go(h, r, Cluster(confirming, Serving), OnA(Confirm), Cluster(Halted(Writable), Serving));
  }

  /** After it the old primary can come back as a standby, through its startup check: the roles are swapped. */
  lemma RolesSwap(h: Hypotheses, r: iset<Cluster>)
    requires Closed(h, r)
    ensures Cluster(Following, Serving) in r
  {
    HandoverCompletes(h, r);
    Go(h, r, Cluster(Halted(Writable), Serving), OnA(Resume), Cluster(Booted(Writable), Serving));
    Go(h, r, Cluster(Booted(Writable), Serving), OnA(AskAtStart(Role(PrimaryRole))),
      Cluster(Booted(Writable), Serving));
    Go(h, r, Cluster(Booted(Writable), Serving), OnA(Clone(Standby)), Cluster(Booted(Standby), Serving));
    Go(h, r, Cluster(Booted(Standby), Serving), OnA(StartAsStandby), Cluster(Following, Serving));
  }

  /** ... or on request. */
  lemma RolesSwapOnRequest(h: Hypotheses, r: iset<Cluster>)
    requires Closed(h, r)
    ensures Cluster(Following, Serving) in r
  {
    HandoverCompletes(h, r);
    var rejoining := Halted(Writable).(main := Rejoining);
    Go(h, r, Cluster(Halted(Writable), Serving), OnA(BeginRejoin), Cluster(rejoining, Serving));
    Go(h, r, Cluster(rejoining, Serving), OnA(Clone(Standby)), Cluster(rejoining.(data := Standby), Serving));
    Go(h, r, Cluster(rejoining.(data := Standby), Serving), OnA(StartAsStandby), Cluster(Following, Serving));
  }

  /** A check or a rejoin that gives up leaves the process up and postgres stopped. */
  lemma GivingUpStaysDown(h: Hypotheses, r: iset<Cluster>)
    requires Closed(h, r)
    ensures Cluster(Halted(Empty), Serving) in r
  {
    HandoverCompletes(h, r);
    var rejoining := Halted(Writable).(main := Rejoining);
    Go(h, r, Cluster(Halted(Writable), Serving), OnA(BeginRejoin), Cluster(rejoining, Serving));
    Go(h, r, Cluster(rejoining, Serving), OnA(Clone(Empty)), Cluster(rejoining.(data := Empty), Serving));
    Go(h, r, Cluster(rejoining.(data := Empty), Serving), OnA(GiveUp), Cluster(Halted(Empty), Serving));
    Go(h, r, Cluster(Halted(Empty), Serving), OnA(Resume), Cluster(Booted(Empty), Serving));
    Go(h, r, Cluster(Booted(Empty), Serving), OnA(GiveUp), Cluster(Halted(Empty), Serving));
  }

  /** A crash is noticed, and the restart that follows its check brings the same primary back. */
  lemma CrashIsRestarted(h: Hypotheses, r: iset<Cluster>)
    requires Closed(h, r)
    ensures Cluster(Halted(Writable), Following) in r && Cluster(Ready(Writable), Following) in r && Formed in r
  {
    ClusterForms(h, r);
    var crashed := Serving.(pg := Down);
    Go(h, r, Formed, OnA(ChildDies), Cluster(crashed, Following));
    Go(h, r, Cluster(crashed, Following), OnA(NoticeCrash), Cluster(Halted(Writable), Following));
    Go(h, r, Cluster(Halted(Writable), Following), OnA(Resume), Cluster(Booted(Writable), Following));
    Go(h, r, Cluster(Booted(Writable), Following), OnA(AskAtStart(Role(StandbyRole))),
      Cluster(Ready(Writable), Following));
    Go(h, r, Cluster(Ready(Writable), Following), OnA(StartCleared), Formed);
  }

  /** Under require-switchover a primary without a standby peer refuses, and goes on serving. */
  lemma RefusalKeepsServing(h: Hypotheses, r: iset<Cluster>)
    requires Closed(h, r)
    ensures Cluster(Serving.(main := RoleChecked(RequireSwitchover, true)), Fresh(Standby)) in r
    ensures PeerCheck(RoleChecked(RequireSwitchover, true), Unreachable) == Idle
    ensures Cluster(Serving, Fresh(Standby)) in r
  {
    AloneWithRole(h, r, RequireSwitchover);
    var me := Serving.(main := RoleChecked(RequireSwitchover, true));
    Go(h, r, Cluster(me, Fresh(Standby)), OnA(AskPeer(Unreachable)), Cluster(Serving, Fresh(Standby)));
  }

  /** A primary whose standby's process is gone, told to stop under a policy that asks. */
  lemma AloneWithRole(h: Hypotheses, r: iset<Cluster>, policy: Policy)
    requires Closed(h, r) && !policy.Force?
    ensures Cluster(Serving.(main := RoleChecked(policy, true)), Fresh(Standby)) in r
  {
    ClusterForms(h, r);
    Go(h, r, Formed, OnB(Die(false)), Cluster(Serving, Fresh(Standby)));
    var me := Serving.(main := RoleChecked(policy, true));
    Go(h, r, Cluster(Serving, Fresh(Standby)), OnA(BeginHandover(policy, NotInRecovery)), Cluster(me, Fresh(Standby)));
  }

  /** Under best-effort it stops all the same, and its promote request reaches nobody. */
  lemma BestEffortStopsAnyway(h: Hypotheses, r: iset<Cluster>)
    requires Closed(h, r)
    ensures Cluster(Halted(Writable), Fresh(Standby)) in r
  {
    AloneWithRole(h, r, BestEffort);
    var b := Fresh(Standby);
    var ready := Serving.(main := ReadyToStop(BestEffort, true));
    var stopped := Halted(Writable).(main := Stopped(BestEffort));
    var waiting := Halted(Writable).(main := Awaiting(BestEffort));
    Go(h, r, Cluster(Serving.(main := RoleChecked(BestEffort, true)), b), OnA(AskPeer(Unreachable)), Cluster(ready, b));
    Go(h, r, Cluster(ready, b), OnA(StopChild(true)), Cluster(stopped, b));
    Go(h, r, Cluster(stopped, b), OnA(SendPromote(false)), Cluster(waiting, b));
    Go(h, r, Cluster(waiting, b), OnA(PromoteReturns(false, false)), Cluster(Halted(Writable), b));
  }

  /** A standby stops beside its primary, without asking it for anything more. */
  lemma StandbyStops(h: Hypotheses, r: iset<Cluster>)
    requires Closed(h, r)
    ensures Cluster(Serving, Halted(Standby)) in r
  {
    ClusterForms(h, r);
    var checked := Following.(main := RoleChecked(RequireSwitchover, false));
    var ready := Following.(main := ReadyToStop(RequireSwitchover, false));
    Go(h, r, Formed, OnB(BeginHandover(RequireSwitchover, InRecovery)), Cluster(Serving, checked));
    Go(h, r, Cluster(Serving, checked), OnB(AskPeer(Role(PrimaryRole))), Cluster(Serving, ready));
    Go(h, r, Cluster(Serving, ready), OnB(StopChild(true)), Cluster(Serving, Halted(Standby)));
  }

  /** A primary's reboot stops it without a promotion, and it comes back to a standby that waited. */
  lemma RebootKeepsRoles(h: Hypotheses, r: iset<Cluster>)
    requires Closed(h, r)
    ensures Cluster(Halted(Writable), Following) in r && Cluster(Booted(Writable), Following) in r
  {
    ClusterForms(h, r);
    var ready := Serving.(main := ReadyToStop(RequireSwitchover, false));
    Go(h, r, Formed, OnA(BeginReboot(RequireSwitchover, NotInRecovery)), Cluster(ready, Following));
    Go(h, r, Cluster(ready, Following), OnA(StopChild(true)), Cluster(Halted(Writable), Following));
    Go(h, r, Cluster(Halted(Writable), Following), OnA(Die(false)), Cluster(Fresh(Writable), Following));
    Go(h, r, Cluster(Fresh(Writable), Following), OnA(Boot), Cluster(Booted(Writable), Following));
  }

  /** A standby's reboot checks its peer like any other stop of a standby. */
  lemma StandbyReboots(h: Hypotheses, r: iset<Cluster>)
    requires Closed(h, r)
    ensures Cluster(Serving, Following.(main := RoleChecked(RequireSwitchover, false))) in r
  {
    ClusterForms(h, r);
    var checked := Following.(main := RoleChecked(RequireSwitchover, false));
    Go(h, r, Formed, OnB(BeginReboot(RequireSwitchover, InRecovery)), Cluster(Serving, checked));
  }

  /** A stop that fails leaves the child and the roles as they were. */
  lemma FailedStopKeepsServing(h: Hypotheses, r: iset<Cluster>)
    requires Closed(h, r)
    ensures var stopping := Cluster(Serving.(main := ReadyToStop(RequireSwitchover, true)), Following);
      stopping in r && Moved(h, stopping, OnA(StopFails)) == Formed
  {
    HandoverMayStop(h, r);
  }

  /** The peer that was asked and did not obey: the caller stays stopped, the peer a standby. */
  lemma PromotionMayFail(h: Hypotheses, r: iset<Cluster>)
    requires Closed(h, r)
    ensures Cluster(Halted(Writable), Following) in r
  {
    HandoverAsks(h, r, true);
    Go(h, r, Cluster(Caller(true), Asked), OnB(ServeForced(false)), Cluster(Caller(true), Following));
    Go(h, r, Cluster(Caller(true), Following), OnA(PromoteReturns(false, false)),
      Cluster(Halted(Writable), Following));
  }

  // ------------------------------------------------------ what dropping one allows

  const Split := Cluster(Serving, Serving)

  /** A partition is taken for the loss of the primary. */
  lemma WithoutUnreachableIsLost(h: Hypotheses, r: iset<Cluster>)
    requires Closed(h, r) && !h.unreachableIsLost
    ensures Split in r
  {
    ClusterForms(h, r);
    var told := Cluster(Serving, Following.(promoters := 1));
    Go(h, r, Formed, OnB(MonitorAsks(Unreachable)), told);
    Go(h, r, told, OnB(Promote(true)), Split);
  }

  /** Two nodes restarting together read each other's "unknown" before either starts. */
  lemma WithoutNoRacingChecks(h: Hypotheses, r: iset<Cluster>)
    requires Closed(h, r) && !h.noRacingChecks
    ensures Split in r
  {
    TwoWritable(h, r);
    var one := Cluster(Ready(Writable), Booted(Writable));
    var both := Cluster(Ready(Writable), Ready(Writable));
    Go(h, r, Cluster(Booted(Writable), Booted(Writable)), OnA(AskAtStart(Role(UnknownRole))), one);
    Go(h, r, one, OnB(AskAtStart(Role(UnknownRole))), both);
    Go(h, r, both, OnA(StartCleared), Cluster(Serving, Ready(Writable)));
    Go(h, r, Cluster(Serving, Ready(Writable)), OnB(StartCleared), Split);
  }

  /** A primary that answers "unknown", as one does while it still refuses connections. */
  lemma WithoutTruthfulStatus(h: Hypotheses, r: iset<Cluster>)
    requires Closed(h, r) && !h.statusIsTruthful
    ensures Split in r
  {
    TwoWritable(h, r);
    StartsBesideIdlePeer(h, r, Booted(Writable));
    Go(h, r, Cluster(Serving, Booted(Writable)), OnB(AskAtStart(Role(UnknownRole))), Cluster(Serving, Ready(Writable)));
    Go(h, r, Cluster(Serving, Ready(Writable)), OnB(StartCleared), Split);
  }

  lemma WithoutNoOperatorForce(h: Hypotheses, r: iset<Cluster>)
    requires Closed(h, r) && !h.noOperatorForce
    ensures Split in r
  {
    ClusterForms(h, r);
    var told := Cluster(Serving, Following.(promoters := 1));
    Go(h, r, Formed, OnB(OperatorForce), told);
    Go(h, r, told, OnB(Promote(true)), Split);
  }

  /** The coordinated handover of the formed cluster up to its stop. */
  lemma HandoverMayStop(h: Hypotheses, r: iset<Cluster>)
    requires Closed(h, r)
    ensures Cluster(Serving.(main := ReadyToStop(RequireSwitchover, true)), Following) in r
  {
    ClusterForms(h, r);
    var me := Serving.(main := RoleChecked(RequireSwitchover, true));
    Go(h, r, Formed, OnA(BeginHandover(RequireSwitchover, NotInRecovery)), Cluster(me, Following));
    var ready := Serving.(main := ReadyToStop(RequireSwitchover, true));
    Go(h, r, Cluster(me, Following), OnA(AskPeer(Role(StandbyRole))), Cluster(ready, Following));
  }

  /** ... and on to its promote request. */
  lemma HandoverAsks(h: Hypotheses, r: iset<Cluster>, confirmed: bool)
    requires Closed(h, r) && (h.stopsAreConfirmed ==> confirmed)
    ensures Cluster(Caller(confirmed), Asked) in r
  {
    HandoverMayStop(h, r);
    var ready := Serving.(main := ReadyToStop(RequireSwitchover, true));
    var stopped := Caller(confirmed).(main := Stopped(RequireSwitchover));
    Go(h, r, Cluster(ready, Following), OnA(StopChild(confirmed)), Cluster(stopped, Following));
    Go(h, r, Cluster(stopped, Following), OnA(SendPromote(true)), Cluster(Caller(confirmed), Asked));
  }

  const Asked := Following.(forced := true)

  function Caller(stopped: bool): Node {
    Node(Awaiting(RequireSwitchover), Writable, if stopped then Down else AsPrimary, false, 0, false)
  }

  /** The caller gives up on its promote request and is told to start again. */
  lemma CallerReturns(h: Hypotheses, r: iset<Cluster>)
    requires Closed(h, r) && !h.promoteEndsWithCaller
    ensures Cluster(Booted(Writable), Asked) in r
  {
    HandoverAsks(h, r, true);
    var idle := Node(Idle, Writable, Down, false, 0, false);
    Go(h, r, Cluster(Caller(true), Asked), OnA(PromoteReturns(false, true)), Cluster(idle, Asked));
    Go(h, r, Cluster(idle, Asked), OnA(Resume), Cluster(Booted(Writable), Asked));
  }

  /** It finds the peer still a standby, and only then does the peer act on the request. */
  lemma WithoutPromoteEndsWithCaller(h: Hypotheses, r: iset<Cluster>)
    requires Closed(h, r) && !h.promoteEndsWithCaller
    ensures Split in r
  {
    CallerReturns(h, r);
    Go(h, r, Cluster(Booted(Writable), Asked), OnA(AskAtStart(Role(StandbyRole))), Cluster(Ready(Writable), Asked));
    Go(h, r, Cluster(Ready(Writable), Asked), OnA(StartCleared), Cluster(Serving, Asked));
    Go(h, r, Cluster(Serving, Asked), OnB(ServeForced(true)), Split);
  }

  /** stopLocal reports success for a killed child whose exit it never saw. */
  lemma WithoutConfirmedStops(h: Hypotheses, r: iset<Cluster>)
    requires Closed(h, r) && !h.stopsAreConfirmed
    ensures Cluster(Caller(false), Serving) in r
  {
    HandoverAsks(h, r, false);
    Go(h, r, Cluster(Caller(false), Asked), OnB(ServeForced(true)), Cluster(Caller(false), Serving));
  }

  /** At most one running primary on every run, from any two data directories and
      under any policies, exactly when all six hypotheses hold. */
  lemma SafeExactlyUnderAllHypotheses(h: Hypotheses)
    ensures SafeOnEveryRun(h) <==> h == All
  {
    if h == All {
      forall d: Cluster | Reachable(All, d) ensures !SplitBrain(d) { ReachableInv(d); }
    } else {
      var r := ReachableIsClosed(h);
      if !h.unreachableIsLost {
        WithoutUnreachableIsLost(h, r);
      } else if !h.noRacingChecks {
        WithoutNoRacingChecks(h, r);
      } else if !h.statusIsTruthful {
        WithoutTruthfulStatus(h, r);
      } else if !h.noOperatorForce {
        WithoutNoOperatorForce(h, r);
      } else if !h.promoteEndsWithCaller {
        WithoutPromoteEndsWithCaller(h, r);
      } else {
        WithoutConfirmedStops(h, r);
      }
      var c := if h == All.(stopsAreConfirmed := false) then Cluster(Caller(false), Serving) else Split;
      assert Reachable(h, c) && SplitBrain(c);
    }
  }
}
