/** Rejoining as a standby: pg_rewind first, a full re-clone otherwise. */
module Rewind {
  import opened Journal
  import opened World

  /** What every tool run on a stopped node leaves alone: nothing was started or
      stopped, and what was journaled before stays. */
  twostate predicate Stopped(w: World)
    reads w
  {
    && old(w.now) <= w.now
    && w.alive <= old(w.alive) && w.nextPid == old(w.nextPid) && w.killed == old(w.killed)
    && old(w.t) <= w.t
    && w.life == old(w.life).(licence := w.life.licence, portFree := w.life.portFree)
  }

  /** The events of one runBasebackup, from `n` on: the port check, and only if nothing
      listens the wipe, and only if that is complete the clone. */
  ghost predicate Recloned(t: seq<Event>, n: nat, ok: bool) {
    && n < |t| && t[n].Ran? && t[n].tool.PortCheck?
    && if !t[n].ok then |t| == n + 1 && !ok
       else
         && n + 2 < |t| && t[n + 1].Wiped? && t[n + 2].Ran? && t[n + 2].tool.ClearData?
         && if !t[n + 2].ok then |t| == n + 3 && !ok else |t| == n + 4 && t[n + 3] == Ran(PgBasebackup, ok)
  }

  /** The events of one rejoinAsStandby up to its result: a re-clone only after a failed rewind. */
  ghost predicate Tried(t: seq<Event>, n: nat, ok: bool) {
    && n < |t| && t[n].Ran? && t[n].tool.PgRewind?
    && if t[n].ok then |t| == n + 2 && t[n + 1] == Ran(ConfigureStandby, ok) else Recloned(t, n + 1, ok)
  }

  ghost predicate RejoinedBy(t: seq<Event>, n: nat, ok: bool) {
    |t| > n && t[|t| - 1] == Rejoined(ok) && Tried(t[..|t| - 1], n, ok)
  }

  /** runBasebackup: PGDATA is cleared only after the port check, on a stopped node. */
  method RunBasebackup(w: World) returns (ok: bool)
    requires w.Valid() && MayReclone(w.cfg, w.life)
    modifies w
    ensures w.Valid() && Stopped(w)
    ensures w.life == old(w.life).(portFree := w.life.portFree)
    ensures ok ==> w.data.Standby?
    ensures Recloned(w.t, old(|w.t|), ok)
    ensures w.t[old(|w.t|)] == Ran(PortCheck, false) ==> w.data == old(w.data)
  {
    var free := w.PortIsFree();
    if !free { return false; }
    ok := w.ClearPgdata();
    if !ok { return; }
    ok := w.RunPgBasebackup();
  }

  /** pg_rewind and the signal file, or else the full re-clone. */
  method RewindOrReclone(w: World) returns (ok: bool)
    requires w.Valid() && MayReclone(w.cfg, w.life)
    modifies w
    ensures w.Valid() && Stopped(w)
    ensures ok ==> w.data.Standby?
    ensures Tried(w.t, old(|w.t|), ok)
    ensures w.life == old(w.life).(portFree := w.life.portFree)
  {
    ok := w.RunRewind();
    if ok {
      ok := w.ConfigureAsStandby();
    } else {
      ok := RunBasebackup(w);
    }
  }

  /** rejoinAsStandby: success leaves standby.signal, failure may leave anything. */
  method RejoinAsStandby(w: World) returns (ok: bool)
    requires w.Valid() && MayReclone(w.cfg, w.life) && !w.life.licence.Bootstrapping?
    modifies w
    ensures w.Valid() && Stopped(w)
    ensures ok ==> w.data.Standby?
    ensures RejoinedBy(w.t, old(|w.t|), ok)
    ensures w.life == AfterRejoin(old(w.life), ok).(portFree := w.life.portFree)
  {
    ok := RewindOrReclone(w);
    ghost var before := w.t;
    w.Log(Rejoined(ok), AfterRejoin(w.life, ok));
    assert w.t[..|w.t| - 1] == before;
  }
}
