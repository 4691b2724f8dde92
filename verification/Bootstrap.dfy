/** First-run initialisation: the two wait loops of the tiebreak. */
module Bootstrap {
  import opened Types
  import opened Journal
  import opened World
  import opened Hostname
  import Rewind

  // --------------------------------------------------------------- runBootstrap

  predicate SawPrimary(e: Event) { e == AskedPeer(Role(PrimaryRole)) }

  /** No event journaled since `from` created a cluster. */
  ghost predicate NoInitdb(t: seq<Event>, from: nat) {
    forall i | from <= i < |t| :: !t[i].InitdbRan?
  }

  /** No event journaled since `from` named the peer primary. */
  ghost predicate NoPrimarySeen(t: seq<Event>, from: nat) {
    forall i | from <= i < |t| :: !SawPrimary(t[i])
  }

  predicate ChecksPort(e: Event) { e.Ran? && e.tool.PortCheck? }

  /** A re-clone is begun right after each answer that named the peer primary, and never otherwise. */
  ghost predicate ClonesWhenPrimary(t: seq<Event>, from: nat) {
    && (forall i | from <= i < |t| && SawPrimary(t[i]) :: i + 1 < |t| && ChecksPort(t[i + 1]))
    && (forall i | from <= i < |t| && ChecksPort(t[i]) :: i > from && SawPrimary(t[i - 1]))
  }

  /** Two stretches of a journal, one after the other. */
  lemma ClonesCompose(t: seq<Event>, more: seq<Event>, from: nat)
    requires from <= |t| && t <= more
    requires ClonesWhenPrimary(t, from) && ClonesWhenPrimary(more, |t|)
    ensures ClonesWhenPrimary(more, from)
  {
    forall i | from <= i < |t| ensures more[i] == t[i] {}
  }

  lemma AnotherRound(t: seq<Event>, more: seq<Event>, from: nat)
    requires from <= |t| && t < more && more[|t|].AskedPeer?
    requires ClonesWhenPrimary(t, from) && ClonesWhenPrimary(more, |t|)
    requires NoInitdb(t, from) && NoInitdb(more, |t|)
    ensures ClonesWhenPrimary(more, from) && NoInitdb(more, from)
    ensures NoPrimarySeen(more, from) ==> NoPrimarySeen(t, from) && !SawPrimary(more[|t|])
    ensures |t| == from || t[from].AskedPeer? ==> more[from].AskedPeer?
  {
    ClonesCompose(t, more, from);
    forall i | from <= i < |t| ensures more[i] == t[i] {}
  }

  /** One round: ask, and re-clone from a peer that says it is primary. */
  method CloneRound(w: World) returns (ok: bool)
    requires w.Valid() && w.life.up.None? && Deciding(w.life)
    modifies w
    ensures w.Valid() && Rewind.Stopped(w) && Deciding(w.life)
    ensures |w.t| > old(|w.t|) && w.t[old(|w.t|)].AskedPeer?
    ensures NoInitdb(w.t, old(|w.t|)) && ClonesWhenPrimary(w.t, old(|w.t|))
    ensures old(w.life).licence.sawPrimary ==> w.life.licence.sawPrimary
    ensures ok <==> w.t[|w.t| - 1] == Ran(PgBasebackup, true)
    ensures ok <==> Succeeds(w.t[|w.t| - 1])
    ensures ok ==> w.data.Standby? && SawPrimary(w.t[old(|w.t|)])
    ensures !SawPrimary(w.t[old(|w.t|)]) ==> |w.t| == old(|w.t|) + 1 && w.now <= old(w.now) + 2000
  {
    var status := w.FetchPeerStatus();
    if status != Role(PrimaryRole) { return false; }
    ghost var n := |w.t|;
    ok := Rewind.RunBasebackup(w);
    RecloneIsNoInitdb(w.t, n, ok);
  }

  /** How many rounds of at most four seconds it takes to fill two minutes. */
  const CloneRounds := 31

  /** bootstrapAsStandbyWithRetry: ends with a clone from a peer that said it was
      primary, or with an error once its two minutes are over. */
  method BootstrapAsStandbyWithRetry(w: World) returns (ok: bool, ghost seen: nat)
    requires w.Valid() && w.life.up.None? && Deciding(w.life)
    modifies w
    ensures w.Valid() && Rewind.Stopped(w) && Deciding(w.life)
    ensures |w.t| > old(|w.t|) && w.t[old(|w.t|)].AskedPeer?
    ensures NoInitdb(w.t, old(|w.t|)) && ClonesWhenPrimary(w.t, old(|w.t|))
    ensures old(w.life).licence.sawPrimary ==> w.life.licence.sawPrimary
    ensures ok <==> w.t[|w.t| - 1] == Ran(PgBasebackup, true)
    ensures ok <==> Succeeds(w.t[|w.t| - 1])
    ensures ok ==> w.data.Standby? && old(|w.t|) <= seen < |w.t| && SawPrimary(w.t[seen])
    ensures !ok ==> w.now > old(w.now) + 120000
    ensures !ok && NoPrimarySeen(w.t, old(|w.t|)) ==> |w.t| - old(|w.t|) >= CloneRounds
  {
    var deadline := w.now + 120000;
    while true
      invariant w.Valid() && Rewind.Stopped(w) && Deciding(w.life)
      invariant w.t == old(w.t) || (old(w.t) < w.t && w.t[old(|w.t|)].AskedPeer?)
      invariant NoInitdb(w.t, old(|w.t|)) && ClonesWhenPrimary(w.t, old(|w.t|))
      invariant old(w.life).licence.sawPrimary ==> w.life.licence.sawPrimary
      invariant NoPrimarySeen(w.t, old(|w.t|)) ==> w.now <= old(w.now) + 4000 * (|w.t| - old(|w.t|))
      decreases deadline - w.now
    {
      seen := |w.t|;
      ghost var before := w.t;
      ok := CloneRound(w);
      AnotherRound(before, w.t, old(|w.t|));
      if ok || w.now > deadline { return; }
      w.Sleep(2000);
    }
  }

  /** The ordinal-zero node's wait: it asks and does nothing else, ends at once when the peer
      is seen primary, and otherwise only after the full 15 seconds of other answers. */
  method PeerTurnsPrimary(w: World) returns (yes: bool)
    requires w.Valid() && w.life.up.None? && Deciding(w.life) && !w.life.licence.sawPrimary
    modifies w
    ensures w.Valid() && Rewind.Stopped(w) && Deciding(w.life)
    ensures forall i | old(|w.t|) <= i < |w.t| :: w.t[i].AskedPeer?
    ensures w.data == old(w.data)
    ensures yes <==> w.life.licence.sawPrimary
    ensures w.life.licence.last.Some?
    ensures |w.t| > old(|w.t|) && NoPrimarySeen(w.t[..|w.t| - 1], old(|w.t|))
    ensures yes <==> SawPrimary(w.t[|w.t| - 1])
    ensures yes <==> !NoPrimarySeen(w.t, old(|w.t|))
    ensures !yes ==> w.now > old(w.now) + 15000 && |w.t| - old(|w.t|) >= Rounds
  {
    var checkDeadline := w.now + 15000;
    while true
      invariant w.Valid() && Rewind.Stopped(w) && Deciding(w.life) && w.data == old(w.data)
      invariant !w.life.licence.sawPrimary
      invariant w.now <= old(w.now) + 3000 * (|w.t| - old(|w.t|))
      invariant NoPrimarySeen(w.t, old(|w.t|)) && forall i | old(|w.t|) <= i < |w.t| :: w.t[i].AskedPeer?
      decreases checkDeadline - w.now
    {
      ghost var before := w.t;
      var status := w.FetchPeerStatus();
      assert w.t[..|w.t| - 1] == before && w.t[|before|] == AskedPeer(status);
      if status == Role(PrimaryRole) { return true; }
      if w.now > checkDeadline { return false; }
      w.Sleep(1000);
    }
  }

  /** initdb ran since `from`, exactly as it should: forced, or on the ordinal-zero node of
      the pair when no answer named the peer primary. */
  ghost predicate FoundsExactly(cfg: Config, t: seq<Event>, from: nat) {
    !NoInitdb(t, from) <==> Founder(cfg) && (cfg.bootstrap.AutoRole? ==> NoPrimarySeen(t, from))
  }

  /** What a bootstrap comes back with is the answer of the last tool it ran. */
  predicate Succeeds(e: Event) { e == Ran(Initdb, true) || e == Ran(PgBasebackup, true) }

  /** runBootstrap. */
  method RunBootstrap(w: World) returns (ok: bool)
    requires w.Valid() && w.life.up.None? && Resting(w.life)
    modifies w
    ensures w.Valid() && Rewind.Stopped(w) && w.life.licence.NoLicence?
    ensures |w.t| > old(|w.t|) + 2 && w.t[old(|w.t|)] == BootstrapBegan && w.t[|w.t| - 1] == BootstrapEnded(ok)
    ensures ok <==> Succeeds(w.t[|w.t| - 2])
    ensures ok ==> !w.data.Empty?
    ensures FoundsExactly(w.cfg, w.t, old(|w.t|))
    ensures !NoInitdb(w.t, old(|w.t|)) && w.cfg.bootstrap.AutoRole? && w.cfg.peerHost != "" ==>
      w.now > old(w.now) + 15000
    ensures ok && w.data.Writable? ==> !NoInitdb(w.t, old(|w.t|))
  {
    w.Log(BootstrapBegan, w.life.(licence := Bootstrapping(false, None, false)));
    ok := Initialise(w);
    Bracketed(old(w.t), w.t, ok);
    w.Log(BootstrapEnded(ok), w.life.(licence := NoLicence));
  }

  /** The two events around a bootstrap are no initdb and no answer. */
  lemma Bracketed(t: seq<Event>, more: seq<Event>, ok: bool)
    requires t + [BootstrapBegan] <= more
    ensures NoInitdb(more + [BootstrapEnded(ok)], |t|) <==> NoInitdb(more, |t| + 1)
    ensures NoPrimarySeen(more + [BootstrapEnded(ok)], |t|) <==> NoPrimarySeen(more, |t| + 1)
  {
    var all := more + [BootstrapEnded(ok)];
    assert all[|t|] == more[|t|] == BootstrapBegan;
    assert forall i | |t| < i < |more| :: all[i] == more[i];
  }

  lemma RecloneIsNoInitdb(t: seq<Event>, n: nat, ok: bool)
    requires Rewind.Recloned(t, n, ok)
    ensures |t| > n && NoInitdb(t, n) && NoPrimarySeen(t, n) && (ok <==> Succeeds(t[|t| - 1]))
  {
  }

  /** The decision of runBootstrap. */
  method Initialise(w: World) returns (ok: bool)
    requires w.Valid() && w.life.up.None? && w.life.licence == Bootstrapping(false, None, false)
    modifies w
    ensures w.Valid() && Rewind.Stopped(w) && MayEnd(w.cfg, w.life)
    ensures |w.t| > old(|w.t|) && (ok <==> Succeeds(w.t[|w.t| - 1]))
    ensures w.cfg.bootstrap.ForcedStandby? ==> Rewind.Recloned(w.t, old(|w.t|), ok)
    ensures ok ==> !w.data.Empty?
    ensures FoundsExactly(w.cfg, w.t, old(|w.t|))
    ensures !NoInitdb(w.t, old(|w.t|)) && w.cfg.bootstrap.AutoRole? && w.cfg.peerHost != "" ==>
      w.now > old(w.now) + 15000
    ensures ok && w.data.Writable? ==> !NoInitdb(w.t, old(|w.t|))
  {
    if w.cfg.bootstrap.ForcedPrimary? {
      ok := w.BootstrapAsPrimary();
      assert w.t[old(|w.t|)].InitdbRan?;
      return;
    }
    if w.cfg.bootstrap.ForcedStandby? {
      ok := Rewind.RunBasebackup(w);
      RecloneIsNoInitdb(w.t, old(|w.t|), ok);
      return;
    }
    ok := InitialiseByName(w);
  }

  /** The auto role: the local hostname breaks the tie. */
  method InitialiseByName(w: World) returns (ok: bool)
    requires w.Valid() && w.life.up.None? && w.life.licence == Bootstrapping(false, None, false)
    requires w.cfg.bootstrap.AutoRole?
    modifies w
    ensures w.Valid() && Rewind.Stopped(w) && MayEnd(w.cfg, w.life)
    ensures |w.t| > old(|w.t|) && (ok <==> Succeeds(w.t[|w.t| - 1]))
    ensures ok ==> !w.data.Empty?
    ensures FoundsExactly(w.cfg, w.t, old(|w.t|))
    ensures !NoInitdb(w.t, old(|w.t|)) && w.cfg.peerHost != "" ==> w.now > old(w.now) + 15000
    ensures ok && w.data.Writable? ==> !NoInitdb(w.t, old(|w.t|))
  {
    if !OrdinalZero(w.cfg.peerHost, w.cfg.hostname) {
      ghost var seen;
      ok, seen := BootstrapAsStandbyWithRetry(w);
      return;
    }
    if w.cfg.peerHost != "" {
      ok := BreakTie(w);
      return;
    }
    ok := w.BootstrapAsPrimary();
    assert w.t[old(|w.t|)].InitdbRan?;
  }

  /** Ordinal zero with a peer: a brief look for a primary before creating the cluster. */
  method BreakTie(w: World) returns (ok: bool)
    requires w.Valid() && w.life.up.None? && w.life.licence == Bootstrapping(false, None, false)
    requires w.cfg.bootstrap.AutoRole? && w.cfg.peerHost != "" && Founder(w.cfg)
    modifies w
    ensures w.Valid() && Rewind.Stopped(w) && MayEnd(w.cfg, w.life)
    ensures |w.t| > old(|w.t|) && (ok <==> Succeeds(w.t[|w.t| - 1]))
    ensures ok ==> !w.data.Empty?
    ensures !NoInitdb(w.t, old(|w.t|)) <==> NoPrimarySeen(w.t, old(|w.t|))
    ensures !NoInitdb(w.t, old(|w.t|)) ==> w.now > old(w.now) + 15000
    ensures ok && w.data.Writable? ==> !NoInitdb(w.t, old(|w.t|))
  {
    var primary := PeerTurnsPrimary(w);
    ghost var before := w.t;
    if primary {
      ghost var seen;
      ok, seen := BootstrapAsStandbyWithRetry(w);
      SeenStays(before, w.t, old(|w.t|));
      return;
    }
    ok := w.BootstrapAsPrimary();
    assert w.t[|before|].InitdbRan?;
  }

  /** After status queries that ended in a primary answer, and more without initdb. */
  lemma SeenStays(t: seq<Event>, more: seq<Event>, from: nat)
    requires t <= more && !NoPrimarySeen(t, from) && NoInitdb(more, |t|)
    requires forall i | from <= i < |t| :: t[i].AskedPeer?
    ensures !NoPrimarySeen(more, from) && NoInitdb(more, from)
  {
    var i :| from <= i < |t| && SawPrimary(t[i]);
    assert more[i] == t[i];
    forall k | from <= k < |t| ensures !more[k].InitdbRan? { assert more[k] == t[k]; }
  }
}
