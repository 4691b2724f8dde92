/** The optional state file: counters that survive restarts of the process, written
    to a temporary file and renamed, with a crash allowed after any file operation. */
module StateFile {
  import opened Types

  datatype Snapshot = Snapshot(
    starts: nat, restarts: nat, lastCrash: int, backups: nat, backupFailures: nat, lastBackup: int, lastDuration: int)

  const Zero := Snapshot(0, 0, 0, 0, 0, 0, 0)

  /** A file's contents: one snapshot's JSON, or something json.Unmarshal rejects. */
  datatype Content = Whole(s: Snapshot) | Torn

  /** How far one savePersistedState call got before it returned or the process died. */
  datatype Progress = NothingWritten | PartlyWritten | WrittenOnly | Renamed(acknowledged: bool)

  datatype Event =
    | Boots(readable: bool)           // initPersistentState, up to its own save
    | Counts(to: Snapshot)            // counters other than the starts go up, timestamps change
    | Saves(progress: Progress)       // persistState of the present counters
    | Dies

  /** `mem` is the running process's counters; `saved` every snapshot that ever
      became the state file, and `acked` how many of them there were when a save last
      returned nil. */
  datatype Disk = Disk(
    target: Option<Content>, tmp: Option<Content>, mem: Option<Snapshot>, saved: seq<Snapshot>, acked: nat)

  const Blank := Disk(None, None, None, [], 0)

  /** The four persisted counters, compared one by one. */
  predicate AtMost(a: Snapshot, b: Snapshot) {
    a.starts <= b.starts && a.restarts <= b.restarts && a.backups <= b.backups && a.backupFailures <= b.backupFailures
  }

  /** loadPersistedState: a missing file is a zero snapshot, and so is one that
      cannot be read or parsed. */
  function Loaded(target: Option<Content>, readable: bool): Snapshot {
    if target.Some? && readable && target.value.Whole? then target.value.s else Zero
  }

  /** What is in the file, as a successful read would report it. */
  function InFile(d: Disk): Snapshot { Loaded(d.target, true) }

  function Booted(target: Option<Content>, readable: bool): Snapshot {
    var s := Loaded(target, readable);
    s.(starts := s.starts + 1)
  }

  function Saved(d: Disk, s: Snapshot, p: Progress): Disk {
    match p
    case NothingWritten => d
    case PartlyWritten => d.(tmp := Some(Torn))
    case WrittenOnly => d.(tmp := Some(Whole(s)))
    case Renamed(acknowledged) =>
      d.(target := Some(Whole(s)), tmp := None, saved := d.saved + [s],
         acked := if acknowledged then |d.saved| + 1 else d.acked)
  }

  predicate MayCount(s: Snapshot, to: Snapshot) { AtMost(s, to) && to.starts == s.starts }

  function Next(d: Disk, e: Event): Option<Disk> {
    match e
    case Boots(readable) => if d.mem.Some? then None else Some(d.(mem := Some(Booted(d.target, readable))))
    case Counts(to) => if d.mem.Some? && MayCount(d.mem.value, to) then Some(d.(mem := Some(to))) else None
    case Saves(p) => if d.mem.Some? then Some(Saved(d, d.mem.value, p)) else None
    case Dies => if d.mem.Some? then Some(d.(mem := None)) else None
  }

  /** A history of process lifetimes over one volume: `ds[i]` is the state before `es[i]`. */
  ghost predicate Run(es: seq<Event>, ds: seq<Disk>) { RunFrom(Blank, es, ds) }

  /** The same from any state on. */
  ghost predicate RunFrom(d: Disk, es: seq<Event>, ds: seq<Disk>) {
    && |ds| == |es| + 1 && ds[0] == d
    && forall i :: 0 <= i < |es| ==> Step(es, ds, i)
  }

  ghost predicate Step(es: seq<Event>, ds: seq<Disk>, i: nat)
    requires i < |es| && |ds| == |es| + 1
  {
    Next(ds[i], es[i]) == Some(ds[i + 1])
  }

  /** The state file is absent or holds exactly one complete snapshot, the last one
      that became it; so a restart that can read it loads a snapshot at least as
      recent as the last save that returned nil. */
  lemma {:induction false} FileIsWhole(es: seq<Event>, ds: seq<Disk>, n: nat)
    requires Run(es, ds) && n <= |es|
    ensures ds[n].acked <= |ds[n].saved|
    ensures ds[n].target == if ds[n].saved == [] then None else Some(Whole(ds[n].saved[|ds[n].saved| - 1]))
  {
    if n > 0 {
      assert Step(es, ds, n - 1);
      FileIsWhole(es, ds, n - 1);
    }
  }

  /** What a boot has to find: a readable file, or nothing in it but a first start. */
  predicate Keeping(d: Disk, readable: bool) {
    readable || AtMost(InFile(d), Zero.(starts := 1))
  }

  ghost predicate BootsKeep(es: seq<Event>, ds: seq<Disk>, from: nat, to: nat)
    requires to <= |es| && |ds| == |es| + 1
  {
    forall i :: from <= i < to && es[i].Boots? ==> Keeping(ds[i], es[i].readable)
  }

  /** `low` is under what the file holds and under what the running process counts. */
  predicate Floor(low: Snapshot, d: Disk) {
    AtMost(low, InFile(d)) && (d.mem.Some? ==> AtMost(low, d.mem.value))
  }

  /** A floor that boots keep is never undercut, by any number of crashes, saves and restarts. */
  lemma {:induction false} FloorIsKept(low: Snapshot, d: Disk, es: seq<Event>, ds: seq<Disk>, n: nat)
    requires RunFrom(d, es, ds) && n <= |es|
    requires Floor(low, d) && BootsKeep(es, ds, 0, n)
    ensures Floor(low, ds[n])
  {
    if n > 0 {
      assert Step(es, ds, n - 1);
      FloorIsKept(low, d, es, ds, n - 1);
    }
  }

  lemma {:induction false} MemoryIsAhead(es: seq<Event>, ds: seq<Disk>, n: nat)
    requires Run(es, ds) && n <= |es| && BootsKeep(es, ds, 0, n)
    ensures ds[n].mem.Some? ==> AtMost(InFile(ds[n]), ds[n].mem.value)
  {
    if n > 0 {
      assert Step(es, ds, n - 1);
      MemoryIsAhead(es, ds, n - 1);
    }
  }

  /** Persisted counters never decrease, over any number of crashes and restarts. */
  lemma CountersNeverDecrease(es: seq<Event>, ds: seq<Disk>, m: nat, n: nat)
    requires Run(es, ds) && m <= n <= |es| && BootsKeep(es, ds, 0, n)
    ensures AtMost(InFile(ds[m]), InFile(ds[n]))
  {
    MemoryIsAhead(es, ds, m);
    var es', ds' := es[m..], ds[m..];
    forall i | 0 <= i < |es'| ensures Step(es', ds', i) { assert Step(es, ds, m + i); }
    assert BootsKeep(es', ds', 0, n - m);
    FloorIsKept(InFile(ds[m]), ds[m], es', ds', n - m);
  }

  /** Whatever happens after a boot from `d`, as long as later boots keep the counters, what is
      persisted then is at least what was persisted before that boot. */
  ghost predicate NeverLoses(d: Disk, readable: bool) {
    forall es: seq<Event>, ds: seq<Disk> | BootThen(d, readable, es, ds) ::
      AtMost(InFile(d), InFile(ds[|es|]))
  }

  ghost predicate BootThen(d: Disk, readable: bool, es: seq<Event>, ds: seq<Disk>) {
    && RunFrom(d, es, ds) && |es| > 0 && es[0] == Boots(readable)
    && BootsKeep(es, ds, 1, |es|)
  }

  /** The exact condition for one boot, over all its continuations. */
  lemma BootNeverLosesExactly(d: Disk, readable: bool)
    requires d.mem.None?
    ensures NeverLoses(d, readable) <==> Keeping(d, readable)
  {
    if Keeping(d, readable) {
      forall es: seq<Event>, ds: seq<Disk> | BootThen(d, readable, es, ds)
        ensures AtMost(InFile(d), InFile(ds[|es|]))
      {
        FloorIsKept(InFile(d), d, es, ds, |es|);
      }
    } else {
      var save := Saves(Renamed(true));
      var s := Booted(d.target, readable);
      var booted := d.(mem := Some(s));
      var es, ds := [Boots(readable), save], [d, booted, Saved(booted, s, Renamed(true))];
      forall i | 0 <= i < 2 ensures Step(es, ds, i) {}
      assert BootThen(d, readable, es, ds);
      assert InFile(ds[|es|]) == s;
    }
  }

  /** A run in which one unreadable boot sends the persisted start count back to one. */
  lemma UnreadableFileResets() returns (es: seq<Event>, ds: seq<Disk>)
    ensures Run(es, ds) && |es| == 8
    ensures InFile(ds[5]).starts == 2 && InFile(ds[8]).starts == 1
  {
    var saves := Saves(Renamed(true));
    es := [Boots(true), saves, Dies, Boots(true), saves, Dies, Boots(false), saves];
    var one, two := Zero.(starts := 1), Zero.(starts := 2);
    ds := [Blank, Disk(None, None, Some(one), [], 0),
           Disk(Some(Whole(one)), None, Some(one), [one], 1),
           Disk(Some(Whole(one)), None, None, [one], 1),
           Disk(Some(Whole(one)), None, Some(two), [one], 1),
           Disk(Some(Whole(two)), None, Some(two), [one, two], 2),
           Disk(Some(Whole(two)), None, None, [one, two], 2),
           Disk(Some(Whole(two)), None, Some(one), [one, two], 2),
           Disk(Some(Whole(one)), None, Some(one), [one, two, one], 3)];
    assert [] + [one] == [one] && [one] + [two] == [one, two] && [one, two] + [one] == [one, two, one];
    forall i | 0 <= i < 8 ensures Step(es, ds, i) {}
  }

  // ------------------------------------------------------------- counting the starts

  /** Before event `n` and before the next boot, a save of the process booted at `b` became the file. */
  ghost predicate KeptSince(es: seq<Event>, b: nat, n: nat)
    requires n <= |es|
  {
    exists j :: b < j < n && Keeps(es[j]) && NoBoot(es, b + 1, j)
  }

  predicate Keeps(e: Event) { e.Saves? && e.progress.Renamed? }

  ghost predicate NoBoot(es: seq<Event>, from: nat, to: nat)
    requires to <= |es|
  {
    forall k :: from <= k < to ==> !es[k].Boots?
  }

  /** The boots whose counters reached the file. */
  ghost function KeptBoots(es: seq<Event>, n: nat): set<nat>
    requires n <= |es|
  {
    set b: nat | b < n && es[b].Boots? && KeptSince(es, b, n)
  }

  ghost predicate LastBoot(es: seq<Event>, b: nat, n: nat) {
    b < n <= |es| && es[b].Boots? && NoBoot(es, b + 1, n)
  }

  /** A save that becomes the file keeps the last boot; nothing else changes which boots are kept. */
  lemma KeptNext(es: seq<Event>, b: nat, n: nat)
    requires n < |es| && (Keeps(es[n]) ==> LastBoot(es, b, n))
    ensures KeptBoots(es, n + 1) == KeptBoots(es, n) + if Keeps(es[n]) then {b} else {}
  {
    forall x: nat | x < n && es[x].Boots?
      ensures KeptSince(es, x, n + 1) <==> KeptSince(es, x, n) || (Keeps(es[n]) && x == b)
    {
      if KeptSince(es, x, n) {
        var j :| x < j < n && Keeps(es[j]) && NoBoot(es, x + 1, j);
        assert KeptSince(es, x, n + 1);
      }
      if Keeps(es[n]) && x == b { assert NoBoot(es, x + 1, n); }
      if Keeps(es[n]) && x < b { assert !NoBoot(es, x + 1, n); }
    }
    assert !KeptSince(es, n, n + 1);
  }

  /** The file counts the kept starts, and a running process one more until its own, at `b`, is kept. */
  ghost predicate Counted(es: seq<Event>, d: Disk, n: nat, b: nat)
    requires n <= |es|
  {
    && InFile(d).starts == |KeptBoots(es, n)|
    && (d.mem.Some? ==> LastBoot(es, b, n) && d.mem.value.starts == |KeptBoots(es, n) + {b}|)
  }

  lemma BootCounts(es: seq<Event>, d: Disk, d': Disk, n: nat, b: nat)
    requires n < |es| && Next(d, es[n]) == Some(d') && es[n].Boots? && es[n].readable
    requires Counted(es, d, n, b)
    ensures Counted(es, d', n + 1, n)
  {
    KeptNext(es, 0, n);
    assert n !in KeptBoots(es, n);
  }

  lemma KeepCounts(es: seq<Event>, d: Disk, d': Disk, n: nat, b: nat)
    requires n < |es| && Next(d, es[n]) == Some(d') && Keeps(es[n])
    requires Counted(es, d, n, b)
    ensures Counted(es, d', n + 1, b)
  {
    KeptNext(es, b, n);
    assert KeptBoots(es, n) + {b} + {b} == KeptBoots(es, n) + {b};
  }

  lemma OthersCount(es: seq<Event>, d: Disk, d': Disk, n: nat, b: nat)
    requires n < |es| && Next(d, es[n]) == Some(d') && !es[n].Boots? && !Keeps(es[n])
    requires Counted(es, d, n, b)
    ensures Counted(es, d', n + 1, b)
  {
    KeptNext(es, 0, n);
    assert KeptBoots(es, n) + {} == KeptBoots(es, n);
  }

  lemma NothingCounted(es: seq<Event>)
    ensures Counted(es, Blank, 0, 0)
  {
    assert KeptBoots(es, 0) == {};
  }

  /** While reads succeed, the file counts exactly the starts that reached it, and a running process one
      more until its own has. */
  lemma {:induction false} StartsAreCounted(es: seq<Event>, ds: seq<Disk>, n: nat) returns (b: nat)
    requires Run(es, ds) && n <= |es|
    requires forall i :: 0 <= i < n && es[i].Boots? ==> es[i].readable
    ensures Counted(es, ds[n], n, b)
  {
    b := 0;
    if n == 0 {
      NothingCounted(es);
    } else {
      assert Step(es, ds, n - 1);
      b := StartsAreCounted(es, ds, n - 1);
      if es[n - 1].Boots? {
        BootCounts(es, ds[n - 1], ds[n], n - 1, b);
        b := n - 1;
      } else if Keeps(es[n - 1]) {
        KeepCounts(es, ds[n - 1], ds[n], n - 1, b);
      } else {
        OthersCount(es, ds[n - 1], ds[n], n - 1, b);
      }
    }
  }

  // ---------------------------------------------------------------- the operations

  datatype FileOp = MkdirAll | WriteTmp | RenameTmp

  /** What one file operation returned. */
  datatype Reply = Reply(op: FileOp, ok: bool)

  const Ops := [MkdirAll, WriteTmp, RenameTmp]

  /** The first `k` operations were tried in order, and all but perhaps the last of them succeeded. */
  ghost predicate Tried(before: seq<Reply>, after: seq<Reply>, k: nat, ok: bool) {
    && k <= 3 && before <= after && |after| == |before| + k
    && forall i :: 0 <= i < k ==> after[|before| + i] == Reply(Ops[i], i < k - 1 || ok)
  }

  lemma TriedOnce(before: seq<Reply>, after: seq<Reply>, k: nat, ok: bool, k': nat, ok': bool)
    requires Tried(before, after, k, ok) && Tried(before, after, k', ok')
    ensures k == k' && (k > 0 ==> ok == ok')
  {
    if k > 0 { assert after[|before| + (k - 1)] == Reply(Ops[k - 1], ok) == Reply(Ops[k' - 1], ok'); }
  }

  class Process {
    var target: Option<Content>
    var tmp: Option<Content>
    var mem: Option<Snapshot>
    var dead: bool               // the process has been ended from outside
    ghost var saved: seq<Snapshot>
    ghost var acked: nat
    ghost var replies: seq<Reply>
    ghost var es: seq<Event>
    ghost var ds: seq<Disk>

    ghost function Now(): Disk
      reads this
    {
      Disk(target, tmp, mem, saved, acked)
    }

    ghost predicate Valid()
      reads this
    {
      Run(es, ds) && ds[|es|] == Now()
    }

    constructor ()
      ensures Valid() && es == []
    {
      target, tmp, mem, dead := None, None, None, false;
      saved, acked, replies, es, ds := [], 0, [], [], [Blank];
    }

    ghost method Log(e: Event)
      requires Run(es, ds) && Next(ds[|es|], e) == Some(Now())
      modifies this`es, this`ds
      ensures Valid() && es == old(es) + [e]
    {
      var es', ds' := es + [e], ds + [Now()];
      forall i | 0 <= i < |es'| ensures Step(es', ds', i) {
        if i < |es| { assert Step(es, ds, i); }
      }
      es, ds := es', ds';
    }

    /** What the file system answers, if the process lives to see it. */
    method Ask(op: FileOp) returns (ok: Option<bool>)
      modifies this`dead, this`replies
      ensures dead == ok.None? && replies == old(replies) + if ok.Some? then [Reply(op, ok.value)] else []
    {
      dead := *;
      if dead { return None; }
      var fine: bool := *;
      replies := replies + [Reply(op, fine)];
      return Some(fine);
    }

    /** os.WriteFile of the temporary file, which may be left truncated or half written. */
    method WriteTemporary(s: Snapshot) returns (ok: Option<bool>)
      modifies this`tmp, this`dead, this`replies
      ensures dead == ok.None? && replies == old(replies) + if ok.Some? then [Reply(WriteTmp, ok.value)] else []
      ensures tmp == old(tmp) || tmp == Some(Torn) || tmp == Some(Whole(s))
      ensures ok == Some(true) ==> tmp == Some(Whole(s))
    {
      ok := Ask(WriteTmp);
      if ok == Some(true) {
        tmp := Some(Whole(s));
      } else if * {
        tmp := Some(Torn);
      } else if * {
        tmp := Some(Whole(s));
      }
    }

    /** os.Rename; a process that dies in it may have done it. */
    method Rename() returns (ok: Option<bool>)
      requires tmp.Some?
      modifies this`target, this`tmp, this`dead, this`replies
      ensures dead == ok.None? && replies == old(replies) + if ok.Some? then [Reply(RenameTmp, ok.value)] else []
      ensures (target == old(tmp) && tmp.None?) || (target == old(target) && tmp == old(tmp))
      ensures ok == Some(true) ==> tmp.None?
      ensures ok == Some(false) ==> tmp == old(tmp)
    {
      ok := Ask(RenameTmp);
      var done: bool := *;
      if ok == Some(true) || (ok.None? && done) { target, tmp := tmp, None; }
    }

    /** savePersistedState: every file operation may fail, and in each the process
        may die, which ends the call without a result.  Nil means that all three
        succeeded, and an error that the last one tried did not. */
    method SavePersistedState(s: Snapshot) returns (result: Option<bool>, ghost k: nat)
      requires Valid() && mem == Some(s) && !dead
      modifies this`target, this`tmp, this`saved, this`acked, this`dead, this`replies, this`es, this`ds
      ensures Valid() && |es| == |old(es)| + 1 && old(es) < es && es[|old(es)|].Saves?
      ensures result == Some(true) <==> es[|old(es)|] == Saves(Renamed(true))
      ensures result == Some(true) ==> target == Some(Whole(s)) && acked == |saved|
      ensures result == Some(false) ==> target == old(target)
      ensures result.None? <==> dead
      ensures Tried(old(replies), replies, k, result != Some(false))
      ensures if result.None? then k < 3 else if result.value then k == 3 else k > 0
    {
      result := Ask(MkdirAll);
      k := if result.Some? then 1 else 0;
      if result != Some(true) {
        Log(Saves(NothingWritten));
        return;
      }
      result := WriteTemporary(s);
      k := if result.Some? then 2 else 1;
      if result != Some(true) {
        Log(Saves(
          if tmp == old(tmp) then NothingWritten else if tmp == Some(Torn) then PartlyWritten else WrittenOnly));
        return;
      }
      result := Rename();
      k := if result.Some? then 3 else 2;
      if tmp.None? {
        saved := saved + [s];
        acked := if dead then acked else |saved|;
        Log(Saves(Renamed(!dead)));
      } else {
        Log(Saves(WrittenOnly));
      }
    }

    /** persistState: one save, whose failure is logged and otherwise ignored. */
    method PersistState() returns (died: bool)
      requires Valid() && mem.Some? && !dead
      modifies this
      ensures Valid() && died == dead && (died <==> mem.None?) && (!died ==> mem == old(mem))
      ensures |es| == |old(es)| + (if died then 2 else 1) && old(es) < es && es[|old(es)|].Saves?
      ensures old(replies) <= replies && (!died ==> old(replies) < replies)
    {
      ghost var k;
      var result;
      result, k := SavePersistedState(mem.value);
      died := result.None?;
      ghost var before := es;
      if died {
        mem := None;
        Log(Dies);
      }
      assert es[|old(es)|] == before[|old(es)|];
    }

    /** initPersistentState, in a new process: the counters of the file, one more start, and a save at once. */
    method InitPersistentState(readable: bool) returns (died: bool)
      requires Valid() && mem.None?
      modifies this
      ensures Valid() && died == dead && (died <==> mem.None?)
      ensures !died ==> mem == Some(Booted(old(target), readable))
      ensures !died && readable && old(target).Some? && old(target).value.Whole? ==>
        var s := old(target).value.s; mem == Some(s.(starts := s.starts + 1))
      ensures !died && (!readable || old(target).None? || old(target).value.Torn?) ==>
        mem == Some(Snapshot(1, 0, 0, 0, 0, 0, 0))
      ensures |es| >= |old(es)| + 2 && old(es) < es
      ensures es[|old(es)|] == Boots(readable) && es[|old(es)| + 1].Saves?
    {
      dead := false;
      var loaded := if target.Some? && readable && target.value.Whole? then target.value.s else Zero;
      mem := Some(loaded.(starts := loaded.starts + 1));
      Log(Boots(readable));
      ghost var before := es;
      died := PersistState();
      assert es[|before| - 1] == before[|before| - 1];
    }

    /** Any number of lifetimes, each with any number of counted events and saves. */
    method Lifetimes(turns: nat)
      requires Valid() && (mem.Some? ==> !dead)
      modifies this
      ensures Valid()
    {
      for i := 0 to turns
        invariant Valid() && (mem.Some? ==> !dead)
      {
        var died: bool;
        if mem.None? {
          var readable: bool := *;
          died := InitPersistentState(readable);
        } else {
          var to: Snapshot := *;
          if MayCount(mem.value, to) {
            mem := Some(to);
            Log(Counts(to));
          }
          died := PersistState();
        }
      }
    }
  }
}
