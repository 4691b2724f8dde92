/** Everything the main goroutine acts on but does not control: the clock, the data
    directory, the peer, the local database, the PostgreSQL tools and the child
    process.  Every answer is chosen freely and written to the journal; the clock
    never goes back. */
module World {
  import opened Types
  import opened Journal

  class World {
    const cfg: Config
    /** Hypothesis: a SIGKILL is delivered, and the exit it causes is seen within the grace period. */
    const reliableKills: bool

    var now: int
    var data: PgData
    var alive: set<nat>    // children the operating system still runs
    var killed: set<nat>   // children a SIGKILL was delivered to
    var refused: set<nat>  // children for which sending it failed
    var nextPid: nat
    ghost var t: seq<Event>
    ghost var ls: seq<Life>

    ghost var life: Life   // where the journal's automaton now is

    ghost function Held(): set<nat>
      reads this`life
    {
      if life.up.Some? then {life.up.value} else {}
    }

    /** With reliable kills the operating system never runs a child other than the
        one held, so never two. */
    ghost predicate Valid()
      reads this
    {
      && Loadable(cfg)
      && Run(cfg, t, ls) && life == ls[|t|]
      && (reliableKills ==> alive <= Held())
      && (life.crashes != [] ==> life.crashes[|life.crashes| - 1] <= now)
    }

    constructor (cfg: Config, reliableKills: bool, now: int, data: PgData)
      requires Loadable(cfg)
      ensures Valid()
      ensures this.cfg == cfg && this.reliableKills == reliableKills && this.data == data
      ensures t == [] && life == Birth
    {
      this.cfg := cfg;
      this.reliableKills := reliableKills;
      this.now := now;
      this.data := data;
      alive, killed, refused, nextPid := {}, {}, {}, 0;
      t, ls, life := [], [Birth], Birth;
    }

    /** At most `limit` milliseconds went by and children may have died, nothing else. */
    twostate predicate Elapsed(limit: int)
      reads this
    {
      && old(now) <= now <= old(now) + limit
      && alive <= old(alive)
    }

    ghost method Log(e: Event, after: Life)
      requires Run(cfg, t, ls) && life == ls[|t|]
      requires Next(cfg, life, e) == Some(after)
      requires e.Crashed? ==> e.rearmed == WithinBudget(cfg, life.crashes, e.at)
      modifies this`t, this`ls, this`life
      ensures Run(cfg, t, ls) && life == ls[|t|]
      ensures t == old(t) + [e] && life == after
    {
      RunSnoc(cfg, t, ls, e);
      t, ls, life := t + [e], ls + [after], after;
    }

    method Elapse(limit: nat)
      modifies this`now, this`alive
      ensures Elapsed(limit)
    {
      var d :| 0 <= d <= limit;
      now := now + d;
      var gone: set<nat> := *;
      alive := alive - gone;
    }

    method Sleep(d: nat)
      requires Valid()
      modifies this`now, this`alive
      ensures Valid()
      ensures now == old(now) + d && alive <= old(alive)
    {
      now := now + d;
      var gone: set<nat> := *;
      alive := alive - gone;
    }

    // ------------------------------------------------------ peer and database

    /** fetchPeerStatus: an error without a network call when no peer is configured. */
    method FetchPeerStatus() returns (a: Answer)
      requires Valid() && MayAsk(life)
      modifies this`now, this`alive, this`t, this`ls, this`life
      ensures Valid() && Elapsed(2000) && t == old(t) + [AskedPeer(a)] && life == Answered(old(life), a)
      ensures cfg.peerHost == "" ==> a.Unreachable?
    {
      a := Unreachable;
      if cfg.peerHost != "" {
        a := *;
        Elapse(2000);
      }
      Log(AskedPeer(a), Answered(life, a));
    }

    method IsInRecovery() returns (r: Recovery)
      requires Valid()
      modifies this`now, this`alive, this`t, this`ls, this`life
      ensures Valid() && Elapsed(3000) && t == old(t) + [AskedRole(r)] && life == old(life).(role := Some(r))
    {
      r := *;
      Elapse(3000);
      Log(AskedRole(r), life.(role := Some(r)));
    }

    method NotifyPeerReboot() returns (ok: bool)
      requires Valid()
      requires ActsAsPrimary(life)
      modifies this`now, this`alive, this`t, this`ls, this`life
      ensures Valid() && Elapsed(2000) && t == old(t) + [NoticeSent(ok)] && life == old(life)
      ensures cfg.peerHost == "" ==> !ok
    {
      ok := *;
      ok := ok && cfg.peerHost != "";
      Elapse(2000);
      Log(NoticeSent(ok), life);
    }

    method RequestPeerPromote() returns (ok: bool)
      requires Valid()
      requires MayAskToPromote(life)
      modifies this`now, this`alive, this`t, this`ls, this`life
      ensures Valid() && Elapsed(70000) && t == old(t) + [PromoteSent(ok)] && life == old(life)
      ensures cfg.peerHost == "" ==> !ok
    {
      ok := *;
      ok := ok && cfg.peerHost != "";
      Elapse(70000);
      Log(PromoteSent(ok), life);
    }

    // ------------------------------------------------- tools that change PGDATA

    /** A tool ran for some time and left PGDATA in some state. */
    method RunTool() returns (ok: bool)
      requires Valid()
      modifies this`now, this`alive, this`data
      ensures Valid()
      ensures old(now) <= now && alive <= old(alive)
    {
      ok := *;
      data := *;
      var limit :| limit >= 0;
      Elapse(limit);
    }

    /** A tool's run and its answer, on record. */
    method RunRecorded(tool: Tool) returns (ok: bool)
      requires Valid() && !tool.PortCheck?
      modifies this`now, this`alive, this`data, this`t, this`ls, this`life
      ensures Valid() && old(now) <= now && alive <= old(alive)
      ensures t == old(t) + [Ran(tool, ok)] && life == old(life)
    {
      ok := RunTool();
      Log(Ran(tool, ok), life);
    }

    /** initdb and the two configuration files written after it. */
    method BootstrapAsPrimary() returns (ok: bool)
      requires Valid() && MayInitdb(cfg, life)
      modifies this`now, this`alive, this`data, this`t, this`ls, this`life
      ensures Valid() && old(now) <= now && alive <= old(alive)
      ensures t == old(t) + [InitdbRan, Ran(Initdb, ok)]
      ensures life == old(life).(licence := old(life).licence.(ran := true))
      ensures ok ==> data.Writable?
    {
      Log(InitdbRan, life.(licence := life.licence.(ran := true)));
      ok := RunRecorded(Initdb);
      if ok { data := Writable; }
    }

    method RunRewind() returns (ok: bool)
      requires Valid()
      modifies this`now, this`alive, this`data, this`t, this`ls, this`life
      ensures Valid() && old(now) <= now && alive <= old(alive)
      ensures t == old(t) + [Ran(PgRewind, ok)] && life == old(life)
    {
      ok := RunRecorded(PgRewind);
    }

    /** Writes standby.signal, then appends primary_conninfo; either write may fail. */
    method ConfigureAsStandby() returns (ok: bool)
      requires Valid()
      modifies this`data, this`t, this`ls, this`life
      ensures Valid()
      ensures data.Standby? || (data == old(data) && !ok)
      ensures t == old(t) + [Ran(ConfigureStandby, ok)] && life == old(life)
    {
      ok := *;
      var signalled: bool := *;
      if ok || signalled { data := Standby; }
      Log(Ran(ConfigureStandby, ok), life);
    }

    /** The clearing loop of runBasebackup, which may stop half way.  With reliable
        kills no process of ours is alive when it begins. */
    method ClearPgdata() returns (ok: bool)
      requires Valid() && MayReclone(cfg, life) && life.portFree
      modifies this`now, this`alive, this`data, this`t, this`ls, this`life
      ensures Valid() && old(now) <= now && alive <= old(alive)
      ensures t == old(t) + [Wiped, Ran(ClearData, ok)] && life == old(life).(portFree := false)
      ensures reliableKills ==> old(alive) == {}
      ensures ok ==> data.Empty?
    {
      Log(Wiped, life.(portFree := false));
      ok := RunRecorded(ClearData);
      if ok { data := Empty; }
    }

    method RunPgBasebackup() returns (ok: bool)
      requires Valid()
      modifies this`now, this`alive, this`data, this`t, this`ls, this`life
      ensures Valid() && old(now) <= now && alive <= old(alive)
      ensures t == old(t) + [Ran(PgBasebackup, ok)] && life == old(life)
      ensures ok ==> data.Standby?
    {
      ok := RunRecorded(PgBasebackup);
      if ok { data := Standby; }
    }

    /** The connection attempt of refuseIfPostgresRunning: nothing listens. */
    method PortIsFree() returns (free: bool)
      requires Valid()
      modifies this`now, this`alive, this`t, this`ls, this`life
      ensures Valid() && Elapsed(500)
      ensures t == old(t) + [Ran(PortCheck, free)] && life == old(life).(portFree := free)
    {
      free := *;
      Elapse(500);
      Log(Ran(PortCheck, free), life.(portFree := free));
    }

    // -------------------------------------------------------------- the child

    /** supervisor.start, through trackChild. */
    method StartChild() returns (child: Option<nat>)
      requires Valid()
      requires MayStart(life, data)
      modifies this`alive, this`nextPid, this`t, this`ls, this`life
      ensures Valid()
      ensures child.None? ==> t == old(t) + [NotStarted]
      ensures child.None? ==> life == old(life) && alive == old(alive) && nextPid == old(nextPid)
      ensures child.Some? ==> t == old(t) + [Started(child.value, data)] && alive == old(alive) + {child.value}
      ensures child.Some? ==> life == old(life).(up := child, licence := NoLicence)
      ensures child.Some? ==> child.value == old(nextPid) && nextPid == old(nextPid) + 1
    {
      var fails: bool := *;
      if fails {
        Log(NotStarted, life);
        return None;
      }
      child := Some(nextPid);
      Log(Started(nextPid, data), life.(up := child, licence := NoLicence));
      alive := alive + {nextPid};
      nextPid := nextPid + 1;
    }

    /** stopGracefully: the signal may be lost, ignored or impossible to send. */
    method SignalChild(pid: nat)
      requires Valid()
      requires MayStop(life, pid)
      modifies this`t, this`ls, this`life
      ensures Valid() && t == old(t) + [StopBegan(pid)] && life == old(life)
    {
      Log(StopBegan(pid), life);
    }

    method KillChild(pid: nat) returns (ok: bool)
      modifies this`killed, this`refused
      ensures reliableKills ==> ok
      ensures if ok then killed == old(killed) + {pid} && refused == old(refused)
        else killed == old(killed) && refused == old(refused) + {pid}
    {
      ok := *;
      ok := ok || reliableKills;
      if ok { killed := killed + {pid}; } else { refused := refused + {pid}; }
    }

    /** select on cw.done and a timer: an exit that has already happened is seen at once,
        and without one the timer has run its time. */
    method AwaitExit(pid: nat, timeout: nat) returns (exited: bool)
      requires Valid()
      modifies this`now, this`alive
      ensures Valid() && Elapsed(timeout)
      ensures exited <==> pid !in alive
      ensures !exited ==> now == old(now) + timeout
      ensures pid !in old(alive) ==> exited && now == old(now)
      ensures reliableKills && pid in killed ==> exited
    {
      if pid !in alive { return true; }
      var end := now + timeout;
      Elapse(timeout);
      if reliableKills && pid in killed { alive := alive - {pid}; }
      exited := pid !in alive;
      if !exited { now := end; }
    }
  }

  /** With reliable kills the operating system never runs two children of this
      process at once, and none while PGDATA is being cleared. */
  lemma AtMostOneChild(w: World)
    requires w.Valid() && w.reliableKills
    ensures |w.alive| <= 1
    ensures w.life.up.None? ==> w.alive == {}
  {
    if w.alive != {} {
      var pid :| pid in w.alive;
      assert w.alive == {pid};
    }
  }
}
