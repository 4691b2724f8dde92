/** performBackup as interleaved steps: any number of triggers, the in-progress guard, and the prune
    that each successful one runs after the guard is released. */
module BackupRuns {
  import opened Types
  import opened Backup

  /** Where a trigger is; `dest` is None for a backup piped to a command. */
  datatype Job =
    | Idle
    | Running(dest: Option<string>, created: bool, answer: Option<bool>)   // holds the guard
    | Ended(dest: Option<string>, ok: bool)           // has released it
    | Listing(name: string)                           // about to read the directory
    | Removing(name: string, gone: seq<string>)       // what is left to remove

  datatype Op =
    | TurnedAway(id: nat)
    | Begins(id: nat, dest: Option<string>)
    | Creates(id: nat)                                // pg_basebackup makes its directory
    | Cleans(id: nat)                                 // ... and takes it away again when it fails
    | Answers(id: nat, ok: bool)                      // what the tool came back with
    | Ends(id: nat, ok: bool)
    | Counts(id: nat)
    | Lists(id: nat, names: seq<string>) | ListFails(id: nat)
    | Removes(id: nat) | RemoveFails(id: nat) | PruneDone(id: nat)

  /** `entries` maps a name under BackupDir to whether it is a directory. */
  datatype Store = Store(entries: map<string, bool>, inProgress: bool, backups: nat, failures: nat, jobs: map<nat, Job>)

  function JobOf(s: Store, id: nat): Job { if id in s.jobs then s.jobs[id] else Idle }

  predicate Enabled(s: Store, op: Op) {
    var job := JobOf(s, op.id);
    match op
    case TurnedAway(_) => job.Idle? && s.inProgress
    case Begins(_, _) => job.Idle? && !s.inProgress
    case Creates(_) =>
      job.Running? && job.answer.None? && !job.created && job.dest.Some? && job.dest.value !in s.entries
    case Cleans(_) => job.Running? && job.answer.None? && job.created && job.dest.Some?
    case Answers(_, ok) => job.Running? && job.answer.None? && (ok ==> job.dest.None? || job.created)
    case Ends(_, ok) => job.Running? && job.answer == Some(ok)
    case Counts(_) => job.Ended?
    case Lists(_, names) => job.Listing? && Distinct(names) && SetOf(names) == Backups(s.entries)
    case ListFails(_) => job.Listing?
    case Removes(_) | RemoveFails(_) => job.Removing? && job.gone != []
    case PruneDone(_) => job.Removing? && job.gone == []
  }

  function Apply(retain: nat, s: Store, op: Op): Store
    requires Enabled(s, op)
  {
    var job := JobOf(s, op.id);
    match op
    case TurnedAway(_) => s
    case Begins(id, dest) => s.(inProgress := true, jobs := s.jobs[id := Running(dest, false, None)])
    case Creates(id) =>
      s.(entries := s.entries[job.dest.value := true], jobs := s.jobs[id := Running(job.dest, true, None)])
    case Cleans(id) =>
      s.(entries := s.entries - {job.dest.value}, jobs := s.jobs[id := Running(job.dest, false, None)])
    case Answers(id, ok) => s.(jobs := s.jobs[id := job.(answer := Some(ok))])
    case Ends(id, ok) => s.(inProgress := false, jobs := s.jobs[id := Ended(job.dest, ok)])
    case Counts(id) =>
      if !job.ok then s.(failures := s.failures + 1, jobs := s.jobs[id := Idle])
      else s.(backups := s.backups + 1, jobs := s.jobs[id := if job.dest.Some? then Listing(job.dest.value) else Idle])
    case Lists(id, names) => s.(jobs := s.jobs[id := Removing(job.name, Excess(names, retain))])
    case Removes(id) =>
      s.(entries := s.entries - {job.gone[0]}, jobs := s.jobs[id := Removing(job.name, job.gone[1..])])
    case ListFails(id) => s.(jobs := s.jobs[id := Idle])
    case RemoveFails(id) => s.(jobs := s.jobs[id := Idle])
    case PruneDone(id) => s.(jobs := s.jobs[id := Idle])
  }

  /** An interleaving over a directory that may hold anything at first. */
  ghost predicate Run(retain: nat, ops: seq<Op>, ss: seq<Store>) {
    && |ss| == |ops| + 1 && ss[0] == Store(ss[0].entries, false, 0, 0, map[])
    && forall i :: 0 <= i < |ops| ==> Step(retain, ops, ss, i)
  }

  ghost predicate Step(retain: nat, ops: seq<Op>, ss: seq<Store>, i: nat)
    requires i < |ops| && |ss| == |ops| + 1
  {
    Enabled(ss[i], ops[i]) && ss[i + 1] == Apply(retain, ss[i], ops[i])
  }

  // -------------------------------------------------------------------- the guard

  ghost predicate Guarded(s: Store) {
    && (s.inProgress ==> exists id: nat :: JobOf(s, id).Running?)
    && (forall id: nat :: JobOf(s, id).Running? ==> s.inProgress)
    && (forall a: nat, b: nat :: JobOf(s, a).Running? && JobOf(s, b).Running? ==> a == b)
  }

  lemma StepKeepsGuarded(retain: nat, s: Store, op: Op)
    requires Guarded(s) && Enabled(s, op)
    ensures Guarded(Apply(retain, s, op))
  {
    var after := Apply(retain, s, op);
    if after.inProgress {
      var id: nat := if op.Begins? then op.id else var x: nat :| JobOf(s, x).Running?; x;
      assert JobOf(after, id).Running?;
    }
    forall id: nat ensures JobOf(after, id) == (if id == op.id then JobOf(after, op.id) else JobOf(s, id)) {}
  }

  /** The flag is set exactly while a backup runs, and no two ever run at once. */
  lemma {:induction false} OneBackupAtATime(retain: nat, ops: seq<Op>, ss: seq<Store>, n: nat)
    requires Run(retain, ops, ss) && n <= |ops|
    ensures Guarded(ss[n])
  {
    if n > 0 {
      assert Step(retain, ops, ss, n - 1);
      OneBackupAtATime(retain, ops, ss, n - 1);
      StepKeepsGuarded(retain, ss[n - 1], ops[n - 1]);
    }
  }

  // -------------------------------------------------------------------- one prune

  /** What trigger `id` removed between two points of a run. */
  ghost function RemovedBy(ops: seq<Op>, ss: seq<Store>, id: nat, from: nat, to: nat): set<string>
    requires to <= |ops| && |ss| == |ops| + 1
  {
    if to <= from then {}
    else
      var job := JobOf(ss[to - 1], id);
      RemovedBy(ops, ss, id, from, to - 1)
      + if ops[to - 1] == Removes(id) && job.Removing? && job.gone != [] then {job.gone[0]} else {}
  }

  /** Since its listing at `k` the trigger has done nothing but remove. */
  ghost predicate Pruning(ops: seq<Op>, id: nat, k: nat, n: nat) {
    && k < n <= |ops| && ops[k].Lists? && ops[k].id == id
    && forall x :: k < x < n && ops[x].id == id ==> ops[x].Removes?
  }

  lemma {:induction false} RemovesInOrder(retain: nat, ops: seq<Op>, ss: seq<Store>, id: nat, k: nat, n: nat)
      returns (r: nat)
    requires Run(retain, ops, ss) && Pruning(ops, id, k, n)
    ensures var excess := Excess(ops[k].names, retain);
      && r <= |excess| && JobOf(ss[n], id).Removing? && JobOf(ss[n], id).gone == excess[r..]
      && RemovedBy(ops, ss, id, k + 1, n) == SetOf(excess[..r])
  {
    assert Step(retain, ops, ss, n - 1);
    var excess := Excess(ops[k].names, retain);
    if n == k + 1 {
      r := 0;
      assert excess[..0] == [] && excess[0..] == excess;
    } else {
      r := RemovesInOrder(retain, ops, ss, id, k, n - 1);
      if ops[n - 1].id == id {
        SetOfNext(excess, r);
        r := r + 1;
      }
    }
  }

  /** With any other triggers in between: a prune that ends without an error has removed, of the backups it
      listed, exactly those that at least BackupRetain others in its listing were newer than.  So the backup
      it was run for survives it if and only if fewer than that many later ones had appeared by then. */
  lemma PruneRemovesExactly(
    retain: nat, ops: seq<Op>, ss: seq<Store>, id: nat, k: nat, n: nat, name: string)
    requires Run(retain, ops, ss) && Pruning(ops, id, k, n)
    requires n < |ops| && ops[n] == PruneDone(id)
    requires name in Backups(ss[k].entries)
    ensures name in RemovedBy(ops, ss, id, k + 1, n) <==> |Newer(Backups(ss[k].entries), name)| >= retain
  {
    assert Step(retain, ops, ss, k) && Step(retain, ops, ss, n);
    var r := RemovesInOrder(retain, ops, ss, id, k, n);
    var excess := Excess(ops[k].names, retain);
    assert r == |excess| && excess[..r] == excess;
    ExcessExactly(ss[k].entries, ops[k].names, retain, name);
  }

  /** However far a prune got, it has removed a set of oldest ones of the backups it listed, and never so
      many that fewer than BackupRetain of those are left. */
  lemma PruneRemovesOldest(retain: nat, ops: seq<Op>, ss: seq<Store>, id: nat, k: nat, n: nat)
    requires Run(retain, ops, ss) && Pruning(ops, id, k, n)
    ensures var gone := RemovedBy(ops, ss, id, k + 1, n);
      gone <= Backups(ss[k].entries) && Pruned(ss[k].entries, ss[k].entries - gone, retain, false)
    ensures n < |ops| && ops[n] == PruneDone(id) ==>
      Pruned(ss[k].entries, ss[k].entries - RemovedBy(ops, ss, id, k + 1, n), retain, true)
  {
    assert Step(retain, ops, ss, k);
    var r := RemovesInOrder(retain, ops, ss, id, k, n);
    ExcessPrunes(ss[k].entries, ops[k].names, retain, r);
    if n < |ops| && ops[n] == PruneDone(id) { assert Step(retain, ops, ss, n); }
  }

  /** When nobody else does anything meanwhile, that is all that happens to the directory. */
  lemma {:induction false} PruneAlone(retain: nat, ops: seq<Op>, ss: seq<Store>, id: nat, k: nat, n: nat)
    requires Run(retain, ops, ss) && Pruning(ops, id, k, n)
    requires forall x :: k < x < n ==> ops[x].id == id
    ensures ss[n].entries == ss[k].entries - RemovedBy(ops, ss, id, k + 1, n)
  {
    assert Step(retain, ops, ss, n - 1);
    if n > k + 1 {
      PruneAlone(retain, ops, ss, id, k, n - 1);
      var r := RemovesInOrder(retain, ops, ss, id, k, n - 1);
    }
  }

  // ------------------------------------------------------------------- whole runs

  /** At `k` some trigger listed `name` together with at least BackupRetain newer ones. */
  ghost predicate Outdated(retain: nat, ops: seq<Op>, ss: seq<Store>, k: nat, name: string)
    requires |ss| == |ops| + 1
  {
    && k < |ops| && ops[k].Lists? && name in Backups(ss[k].entries)
    && |Newer(Backups(ss[k].entries), name)| >= retain
  }

  /** Whatever a trigger is about to remove was outdated in some listing. */
  lemma {:induction false} GoneWasOutdated(
    retain: nat, ops: seq<Op>, ss: seq<Store>, n: nat, id: nat, name: string) returns (k: nat)
    requires Run(retain, ops, ss) && n <= |ops|
    requires JobOf(ss[n], id).Removing? && name in SetOf(JobOf(ss[n], id).gone)
    ensures k < n && Outdated(retain, ops, ss, k, name)
  {
    assert Step(retain, ops, ss, n - 1);
    var gone := JobOf(ss[n], id).gone;
    if ops[n - 1].Lists? && ops[n - 1].id == id {
      k := n - 1;
      ExcessPrunes(ss[k].entries, ops[k].names, retain, |gone|);
      assert gone[..|gone|] == gone;
      ExcessExactly(ss[k].entries, ops[k].names, retain, name);
    } else {
      var i :| 0 <= i < |gone| && gone[i] == name;
      var before := JobOf(ss[n - 1], id).gone;
      assert before == gone || (gone == before[1..] && before[i + 1] == name);
      k := GoneWasOutdated(retain, ops, ss, n - 1, id, name);
    }
  }

  /** On every run a backup disappears only because some listing held at least BackupRetain newer ones, or
      because the failing pg_basebackup that made it takes it away again. */
  lemma {:induction false} LostOnlyToNewer(
    retain: nat, ops: seq<Op>, ss: seq<Store>, m: nat, n: nat, name: string) returns (k: nat)
    requires Run(retain, ops, ss) && m <= n <= |ops|
    requires name in Backups(ss[m].entries) && name !in Backups(ss[n].entries)
    ensures k < n
    ensures
      || Outdated(retain, ops, ss, k, name)
      || (m <= k && ops[k].Cleans? && JobOf(ss[k], ops[k].id) == Running(Some(name), true, None))
    decreases n
  {
    assert Step(retain, ops, ss, n - 1);
    if name !in Backups(ss[n - 1].entries) {
      k := LostOnlyToNewer(retain, ops, ss, m, n - 1, name);
    } else if ops[n - 1].Cleans? {
      k := n - 1;
    } else {
      assert ops[n - 1].Removes? && JobOf(ss[n - 1], ops[n - 1].id).gone[0] == name;
      k := GoneWasOutdated(retain, ops, ss, n - 1, ops[n - 1].id, name);
    }
  }

  /** From `b` on only trigger `id` has been admitted, to write the directory dated `now`. */
  ghost predicate OnlyBackup(ops: seq<Op>, ss: seq<Store>, id: nat, b: nat, n: nat, now: Stamp)
    requires |ss| == |ops| + 1
  {
    && b < n <= |ops| && ops[b] == Begins(id, Some(Format(now)))
    && (forall x :: b < x < n ==> !ops[x].Begins?)
    && ValidStamp(now) && NoneLater(ss[b].entries, now)
    && (forall x :: 0 <= x <= b ==> Format(now) !in ss[x].entries)
  }

  /** What that says of the state at `s`, given the backups there were when it began. */
  ghost predicate Undisturbed(s: Store, id: nat, all: set<string>, name: string) {
    && (forall x | x in Backups(s.entries) :: x == name || x in all)
    && (forall j: nat :: JobOf(s, j).Removing? ==> name !in SetOf(JobOf(s, j).gone))
    && (forall j: nat :: JobOf(s, j).Running? ==> j == id)
    && (JobOf(s, id).Running? ==>
         && JobOf(s, id).dest == Some(name) && (JobOf(s, id).created ==> name in Backups(s.entries))
         && (JobOf(s, id).answer == Some(true) ==> JobOf(s, id).created))
  }

  lemma BeginsUndisturbed(retain: nat, ops: seq<Op>, ss: seq<Store>, id: nat, b: nat, now: Stamp)
    requires Run(retain, ops, ss) && OnlyBackup(ops, ss, id, b, b + 1, now)
    ensures Undisturbed(ss[b + 1], id, Backups(ss[b].entries), Format(now))
  {
    var name := Format(now);
    assert Step(retain, ops, ss, b);
    OneBackupAtATime(retain, ops, ss, b);
    var s, after := ss[b], ss[b + 1];
    forall j: nat ensures JobOf(after, j) == (if j == id then JobOf(after, id) else JobOf(s, j)) {}
    forall j: nat ensures JobOf(after, j).Removing? ==> name !in SetOf(JobOf(after, j).gone) {
      if JobOf(s, j).Removing? && name in SetOf(JobOf(s, j).gone) {
        var k := GoneWasOutdated(retain, ops, ss, b, j, name);
      }
    }
  }

  lemma StepUndisturbed(retain: nat, s: Store, op: Op, id: nat, past: map<string, bool>, now: Stamp)
    requires retain > 0 && ValidStamp(now) && NoneLater(past, now)
    requires Enabled(s, op) && !op.Begins?
    requires Undisturbed(s, id, Backups(past), Format(now))
    ensures Undisturbed(Apply(retain, s, op), id, Backups(past), Format(now))
    ensures Format(now) in Backups(s.entries) && !op.Cleans? ==> Format(now) in Backups(Apply(retain, s, op).entries)
  {
    var name, after := Format(now), Apply(retain, s, op);
    FormatIsBackupName(now);
    forall j: nat ensures JobOf(after, j) == (if j == op.id then JobOf(after, op.id) else JobOf(s, j)) {}
    if op.Lists? { NotExcess(retain, s, op.names, id, past, now); }
    if op.Removes? { SetOfFirst(JobOf(s, op.id).gone); }
  }

  /** No listing finds the directory dated `now` outdated. */
  lemma NotExcess(retain: nat, s: Store, names: seq<string>, id: nat, past: map<string, bool>, now: Stamp)
    requires retain > 0 && ValidStamp(now) && NoneLater(past, now)
    requires Distinct(names) && SetOf(names) == Backups(s.entries)
    requires Undisturbed(s, id, Backups(past), Format(now))
    ensures Format(now) !in SetOf(Excess(names, retain))
  {
    var name := Format(now);
    if name in SetOf(Excess(names, retain)) {
      ListedOnly(names, retain, name);
      ExcessExactly(s.entries, names, retain, name);
      var newer := Newer(Backups(s.entries), name);
      assert |newer| > 0;
      var x :| x in newer;
      LessTotal(name, name);
      NoneNewer(past, now, x);
    }
  }

  lemma ListedOnly(names: seq<string>, retain: nat, name: string)
    requires Distinct(names) && name in SetOf(Excess(names, retain))
    ensures name in SetOf(names)
  {
    SortedIsSameSet(names);
    var i :| 0 <= i < |Excess(names, retain)| && Excess(names, retain)[i] == name;
    assert SortStrings(names)[i] == name;
  }

  lemma SetOfFirst(names: seq<string>)
    requires names != []
    ensures names[0] in SetOf(names) && SetOf(names[1..]) <= SetOf(names)
  {
    forall x | x in SetOf(names[1..]) ensures x in SetOf(names) {
      var i :| 0 <= i < |names[1..]| && names[1..][i] == x;
      assert names[i + 1] == x;
    }
  }

  lemma {:induction false} StaysUndisturbed(
    retain: nat, ops: seq<Op>, ss: seq<Store>, id: nat, b: nat, n: nat, now: Stamp)
    requires Run(retain, ops, ss) && retain > 0 && OnlyBackup(ops, ss, id, b, n, now)
    ensures Undisturbed(ss[n], id, Backups(ss[b].entries), Format(now))
    decreases n
  {
    if n == b + 1 {
      BeginsUndisturbed(retain, ops, ss, id, b, now);
    } else {
      assert Step(retain, ops, ss, n - 1);
      StaysUndisturbed(retain, ops, ss, id, b, n - 1, now);
      StepUndisturbed(retain, ss[n - 1], ops[n - 1], id, ss[b].entries, now);
    }
  }

  /** With a clock that does not go back, the backup just taken is kept by every prune, its own and late
      ones of earlier triggers, for as long as no other backup is admitted. */
  lemma {:induction false} NewBackupIsKept(
    retain: nat, ops: seq<Op>, ss: seq<Store>, id: nat, b: nat, e: nat, n: nat, now: Stamp)
    requires Run(retain, ops, ss) && retain > 0 && OnlyBackup(ops, ss, id, b, n, now)
    requires b < e < n && ops[e] == Ends(id, true)
    ensures Format(now) in Backups(ss[n].entries) && !JobOf(ss[n], id).Running?
    decreases n
  {
    assert Step(retain, ops, ss, n - 1);
    StaysUndisturbed(retain, ops, ss, id, b, n - 1, now);
    StepUndisturbed(retain, ss[n - 1], ops[n - 1], id, ss[b].entries, now);
    if e < n - 1 {
      NewBackupIsKept(retain, ops, ss, id, b, e, n - 1, now);
    }
  }

  /** The same run for any two directory names. */
  function OverlapOps(first: string, second: string): seq<Op> {
    [Begins(0, Some(first)), Creates(0), Answers(0, true), Ends(0, true), Counts(0),
     Begins(1, Some(second)), Creates(1), Lists(0, [first, second]), Removes(0), PruneDone(0),
     Answers(1, false), Ends(1, false), Counts(1)]
  }

  function OverlapStores(first: string, second: string): seq<Store> {
    var a, b, ab := map[first := true], map[second := true], map[first := true, second := true];
    var running, failed := Running(Some(second), true, None), Running(Some(second), true, Some(false));
    [Store(map[], false, 0, 0, map[]),
     Store(map[], true, 0, 0, map[0 := Running(Some(first), false, None)]),
     Store(a, true, 0, 0, map[0 := Running(Some(first), true, None)]),
     Store(a, true, 0, 0, map[0 := Running(Some(first), true, Some(true))]),
     Store(a, false, 0, 0, map[0 := Ended(Some(first), true)]),
     Store(a, false, 1, 0, map[0 := Listing(first)]),
     Store(a, true, 1, 0, map[0 := Listing(first), 1 := Running(Some(second), false, None)]),
     Store(ab, true, 1, 0, map[0 := Listing(first), 1 := running]),
     Store(ab, true, 1, 0, map[0 := Removing(first, [first]), 1 := running]),
     Store(b, true, 1, 0, map[0 := Removing(first, []), 1 := running]),
     Store(b, true, 1, 0, map[0 := Idle, 1 := running]),
     Store(b, true, 1, 0, map[0 := Idle, 1 := failed]),
     Store(b, false, 1, 0, map[0 := Idle, 1 := Ended(Some(second), false)]),
     Store(b, false, 1, 1, map[0 := Idle, 1 := Idle])]
  }

  lemma OverlapBegins(first: string, second: string, i: nat)
    requires first != second && i < 7
    ensures Step(1, OverlapOps(first, second), OverlapStores(first, second), i)
  {
  }

  lemma OverlapEnds(first: string, second: string, i: nat)
    requires IsBackupName(first) && IsBackupName(second) && Less(first, second) && first != second
    requires 7 <= i < 13
    ensures Step(1, OverlapOps(first, second), OverlapStores(first, second), i)
  {
    ListingOfTwo(first, second);
    var ab, b := map[first := true, second := true], map[second := true];
    assert ab - {first} == b;
  }

  /** The names and the end of the run, apart from its steps. */
  lemma OverlapResult(first: string, second: string)
    ensures var ops, ss := OverlapOps(first, second), OverlapStores(first, second);
      && |ops| == 13 && |ss| == 14 && ss[0] == Store(map[], false, 0, 0, map[])
      && ops[0] == Begins(0, Some(first)) && ops[3] == Ends(0, true)
      && (forall i :: 0 <= i < 13 && ops[i].Ends? && ops[i].id == 1 ==> !ops[i].ok)
      && ss[13].backups == 1 && ss[13].entries == map[second := true]
  {
  }

  /** With PG_GUARD_BACKUP_RETAIN=1 and a second trigger between the end of a backup and its prune, the backup
      just counted as a success is removed in favour of a directory that never becomes one. */
  lemma OverlapLosesBackup() returns (ops: seq<Op>, ss: seq<Store>, first: string, second: string)
    ensures Run(1, ops, ss) && |ops| == 13 && IsBackupName(first) && IsBackupName(second) && Less(first, second)
    ensures ops[0] == Begins(0, Some(first)) && ops[3] == Ends(0, true)
    ensures forall i :: 0 <= i < |ops| && ops[i].Ends? && ops[i].id == 1 ==> !ops[i].ok
    ensures ss[13].backups == 1 && ss[13].entries == map[second := true]
  {
    var t := Stamp(2026, 1, 1, 0, 0, 0);
    var u := t.(second := 1);
    first, second := Format(t), Format(u);
    FormatOrder(t, u);
    FormatIsBackupName(t);
    FormatIsBackupName(u);
    ops, ss := OverlapOps(first, second), OverlapStores(first, second);
    OverlapResult(first, second);
    forall i | 0 <= i < 13 ensures Step(1, ops, ss, i) {
      if i < 7 { OverlapBegins(first, second, i); } else { OverlapEnds(first, second, i); }
    }
  }

  lemma ListingOfTwo(first: string, second: string)
    requires IsBackupName(first) && IsBackupName(second) && Less(first, second) && first != second
    ensures var names := [first, second];
      Distinct(names) && SetOf(names) == Backups(map[first := true, second := true]) && Excess(names, 1) == [first]
  {
    var names := [first, second];
    assert names[0] == first && names[1] == second;
    assert names[1..] == [second] && [second][1..] == [];
    assert SortStrings([second]) == [second];
    assert SortStrings(names) == [first, second];
    assert [first, second][..1] == [first];
  }

  // ---------------------------------------------------------------- the directory

  datatype Outcome = Done | NotPrimary | InProgress | Failed

  datatype Role = RoleError | IsStandby | IsPrimary

  class BackupDir {
    const retain: nat
    var entries: map<string, bool>
    var inProgress: bool             // backupInProgress
    var backups: nat
    var failures: nat
    var jobs: map<nat, Job>          // how far every trigger has got
    var budget: nat                  // how many more steps the other triggers will take
    ghost var ops: seq<Op>
    ghost var ss: seq<Store>

    function Now(): Store
      reads this`entries, this`inProgress, this`backups, this`failures, this`jobs
    {
      Store(entries, inProgress, backups, failures, jobs)
    }

    /** What happened so far is an interleaving that the theorems speak about. */
    ghost predicate Valid()
      reads this
    {
      Run(retain, ops, ss) && ss[|ops|] == Now()
    }

    constructor (retain: nat, entries: map<string, bool>, budget: nat)
      ensures Valid() && ops == [] && this.retain == retain && this.entries == entries
    {
      this.retain, this.entries, this.budget := retain, entries, budget;
      inProgress, backups, failures, jobs := false, 0, 0, map[];
      ops, ss := [], [Store(entries, false, 0, 0, map[])];
    }

    function Mine(me: nat): Job
      reads this`jobs
    {
      if me in jobs then jobs[me] else Idle
    }

    ghost method Took(op: Op, before: Store)
      requires Run(retain, ops, ss) && ss[|ops|] == before && Enabled(before, op)
      requires Apply(retain, before, op) == Now()
      modifies this`ops, this`ss
      ensures Valid() && ops == old(ops) + [op] && ss == old(ss) + [Now()]
    {
      var ops', ss' := ops + [op], ss + [Now()];
      forall i | 0 <= i < |ops'| ensures Step(retain, ops', ss', i) {
        if i < |ops| { assert Step(retain, ops, ss, i); }
      }
      ops, ss := ops', ss';
    }

    /** Since `from` trigger `me` has taken no step. */
    ghost predicate Others(me: nat, from: nat)
      reads this`ops
    {
      forall i :: from <= i < |ops| ==> ops[i].id != me
    }

    /** What happened so far stays on record. */
    twostate predicate Grows()
      reads this
    {
      old(ops) <= ops && old(ss) <= ss
    }

    method Happen(me: nat)
      requires Valid() && budget > 0
      modifies this
      ensures Valid() && Grows() && Others(me, old(|ops|)) && Mine(me) == old(Mine(me)) && budget == old(budget) - 1
    {
      budget := budget - 1;
      var op: Op := *;
      if op.id != me && Enabled(Now(), op) {
        ghost var before := Now();
        var after := Apply(retain, Now(), op);
        entries, inProgress := after.entries, after.inProgress;
        backups, failures, jobs := after.backups, after.failures, after.jobs;
        Took(op, before);
      }
    }

    /** The other triggers take any number of steps. */
    method Interfere(me: nat)
      requires Valid()
      modifies this
      ensures Valid() && Grows() && Others(me, old(|ops|)) && Mine(me) == old(Mine(me))
      ensures budget <= old(budget)
    {
      var more: bool := *;
      while more && budget > 0
        invariant Valid() && Grows() && Others(me, old(|ops|)) && Mine(me) == old(Mine(me))
        invariant budget <= old(budget)
        decreases budget
      {
        Happen(me);
        more := *;
      }
    }

    /** os.ReadDir: every entry once. */
    method ReadDir() returns (names: Option<seq<string>>)
      ensures names.Some? ==> Distinct(names.value) && SetOf(names.value) == entries.Keys
    {
      if * { return None; }
      var rest, seen := entries.Keys, [];
      while rest != {}
        invariant rest <= entries.Keys && Distinct(seen) && SetOf(seen) == entries.Keys - rest
      {
        var name :| name in rest;
        assert name !in SetOf(seen);
        ghost var before := seen;
        seen, rest := seen + [name], rest - {name};
        forall x ensures x in SetOf(seen) <==> x in SetOf(before) || x == name {
          if x in SetOf(before) {
            var i :| 0 <= i < |before| && before[i] == x;
            assert seen[i] == x;
          }
          assert seen[|before|] == name;
        }
      }
      return Some(seen);
    }

    /** The names a prune works on. */
    method ListBackups() returns (names: Option<seq<string>>)
      ensures names.Some? ==> Distinct(names.value) && SetOf(names.value) == Backups(entries)
    {
      var listing := ReadDir();
      if listing.None? { return None; }
      var found := [];
      for i := 0 to |listing.value|
        invariant Distinct(found) && SetOf(found) == SetOf(listing.value[..i]) * Backups(entries)
      {
        var name := listing.value[i];
        SetOfNext(listing.value, i);
        assert name in SetOf(listing.value);
        if entries[name] && IsBackupName(name) {
          assert name !in SetOf(listing.value[..i]);
          SetOfSnoc(found, name);
          found := found + [name];
        }
      }
      assert listing.value[..|listing.value|] == listing.value;
      return Some(found);
    }


    /** What a tool came back with, on record. */
    method Answer(me: nat, ok: bool)
      requires Valid() && Mine(me).Running? && Mine(me).answer.None?
      requires ok ==> Mine(me).dest.None? || Mine(me).created
      modifies this`jobs, this`ops, this`ss
      ensures Valid() && Grows() && Mine(me) == old(Mine(me)).(answer := Some(ok))
      ensures ops == old(ops) + [Answers(me, ok)]
    {
      ghost var before := Now();
      jobs := jobs[me := Mine(me).(answer := Some(ok))];
      Took(Answers(me, ok), before);
    }

    method Create(me: nat)
      requires Valid() && Mine(me).Running? && Mine(me).answer.None? && !Mine(me).created
      requires Mine(me).dest.Some? && Mine(me).dest.value !in entries
      modifies this`entries, this`jobs, this`ops, this`ss
      ensures Valid() && Grows() && Mine(me) == old(Mine(me)).(created := true)
    {
      ghost var before := Now();
      var dest := Mine(me).dest.value;
      entries, jobs := entries[dest := true], jobs[me := Running(Some(dest), true, None)];
      Took(Creates(me), before);
    }

    method Clean(me: nat)
      requires Valid() && Mine(me).Running? && Mine(me).answer.None? && Mine(me).created && Mine(me).dest.Some?
      modifies this`entries, this`jobs, this`ops, this`ss
      ensures Valid() && Grows() && Mine(me) == old(Mine(me)).(created := false)
    {
      ghost var before := Now();
      var dest := Mine(me).dest.value;
      entries, jobs := entries - {dest}, jobs[me := Running(Some(dest), false, None)];
      Took(Cleans(me), before);
    }

    /** pg_basebackup, into a fresh directory or a pipe; a failed run may or may not take away what it made. */
    method PgBasebackup(me: nat) returns (ok: bool)
      requires Valid() && Mine(me).Running? && Mine(me).answer.None? && !Mine(me).created
      modifies this
      ensures Valid() && Grows() && Mine(me).Running? && Mine(me).dest == old(Mine(me)).dest
      ensures Mine(me).answer == Some(ok) && ops[|ops| - 1] == Answers(me, ok)
    {
      ok := *;
      if Mine(me).dest.Some? {
        if Mine(me).dest.value in entries {
          ok := false;
        } else {
          Create(me);
          Interfere(me);
          var cleans: bool := *;
          if !ok && cleans { Clean(me); }
        }
      }
      Answer(me, ok);
    }

    /** backupInProgress.CompareAndSwap(false, true). */
    method Acquire(me: nat, dest: Option<string>) returns (won: bool)
      requires Valid() && Mine(me).Idle?
      modifies this`inProgress, this`jobs, this`ops, this`ss
      ensures Valid() && Grows() && won == !old(inProgress)
      ensures ops == old(ops) + [if won then Begins(me, dest) else TurnedAway(me)]
      ensures if won then Mine(me) == Running(dest, false, None) else Now() == old(Now())
    {
      ghost var before := Now();
      won := !inProgress;
      if won {
        inProgress, jobs := true, jobs[me := Running(dest, false, None)];
        Took(Begins(me, dest), before);
      } else {
        Took(TurnedAway(me), before);
      }
    }

    /** The deferred backupInProgress.Store(false). */
    method Release(me: nat, ok: bool)
      requires Valid() && Mine(me).Running? && Mine(me).answer == Some(ok)
      modifies this`inProgress, this`jobs, this`ops, this`ss
      ensures Valid() && Grows() && !inProgress
      ensures ops == old(ops) + [Ends(me, ok)] && Mine(me) == Ended(old(Mine(me)).dest, ok)
    {
      ghost var before := Now();
      inProgress, jobs := false, jobs[me := Ended(Mine(me).dest, ok)];
      Took(Ends(me, ok), before);
    }

    /** runBackup, or runBackupPipe when `dest` is None: the compare-and-swap, the tool, the release. */
    method RunBackup(me: nat, dest: Option<string>) returns (o: Outcome)
      requires Valid() && Mine(me).Idle?
      modifies this
      ensures Valid() && Grows() && |ops| > old(|ops|)
      ensures o in {InProgress, Failed, Done}
      ensures o.InProgress? <==> old(inProgress)
      ensures o.InProgress? ==> Now() == old(Now()) && ops == old(ops) + [TurnedAway(me)]
      ensures !o.InProgress? ==> |ops| > old(|ops|) + 1 && ops[old(|ops|)] == Begins(me, dest)
      ensures !o.InProgress? ==> Mine(me) == Ended(dest, o.Done?) && ops[|ops| - 1] == Ends(me, o.Done?)
    {
      var won := Acquire(me, dest);
      if !won { return InProgress; }
      Interfere(me);
      var ok := PgBasebackup(me);
      Interfere(me);
      Release(me, ok);
      return if ok then Done else Failed;
    }

    /** The bookkeeping after runBackup has returned. */
    method Count(me: nat)
      requires Valid() && Mine(me).Ended?
      modifies this`backups, this`failures, this`jobs, this`ops, this`ss
      ensures Valid() && ops == old(ops) + [Counts(me)] && old(ss) <= ss
      ensures backups == old(backups) + if old(Mine(me)).ok then 1 else 0
      ensures failures == old(failures) + if old(Mine(me)).ok then 0 else 1
      ensures Mine(me) ==
        if old(Mine(me)).ok && old(Mine(me)).dest.Some? then Listing(old(Mine(me)).dest.value) else Idle
    {
      ghost var before := Now();
      var job := Mine(me);
      if job.ok { backups := backups + 1; } else { failures := failures + 1; }
      jobs := jobs[me := if job.ok && job.dest.Some? then Listing(job.dest.value) else Idle];
      Took(Counts(me), before);
    }

    /** One removal of the prune. */
    method RemoveNext(me: nat) returns (ok: bool)
      requires Valid() && Mine(me).Removing? && Mine(me).gone != []
      modifies this
      ensures Valid() && Grows() && |ops| == old(|ops|) + 1
      ensures ok ==> ops[|ops| - 1] == Removes(me) && entries == old(entries) - {old(Mine(me)).gone[0]}
      ensures ok ==> Mine(me) == Removing(old(Mine(me)).name, old(Mine(me)).gone[1..]) && budget == old(budget)
      ensures !ok ==> ops[|ops| - 1] == RemoveFails(me) && Mine(me).Idle? && entries == old(entries)
    {
      ghost var before := Now();
      var job := Mine(me);
      ok := *;
      if ok {
        entries, jobs := entries - {job.gone[0]}, jobs[me := Removing(job.name, job.gone[1..])];
        Took(Removes(me), before);
      } else {
        jobs := jobs[me := Idle];
        Took(RemoveFails(me), before);
      }
    }

    /** The listing of the prune, and what is to go. */
    method List(me: nat) returns (ok: bool)
      requires Valid() && Mine(me).Listing?
      modifies this`jobs, this`ops, this`ss
      ensures Valid() && Grows() && |ops| == old(|ops|) + 1
      ensures ok ==> Mine(me).Removing? && Pruning(ops, me, old(|ops|), |ops|)
      ensures !ok ==> Mine(me).Idle? && ops[old(|ops|)] == ListFails(me)
    {
      ghost var before := Now();
      var name := Mine(me).name;
      var listed := ListBackups();
      ok := listed.Some?;
      if ok {
        jobs := jobs[me := Removing(name, Excess(listed.value, retain))];
        Took(Lists(me, listed.value), before);
      } else {
        jobs := jobs[me := Idle];
        Took(ListFails(me), before);
      }
    }

    method Finish(me: nat)
      requires Valid() && Mine(me).Removing? && Mine(me).gone == []
      modifies this`jobs, this`ops, this`ss
      ensures Valid() && Grows() && Mine(me).Idle? && ops == old(ops) + [PruneDone(me)]
    {
      ghost var before := Now();
      jobs := jobs[me := Idle];
      Took(PruneDone(me), before);
    }

    /** pruneOldBackups: `k` is its listing. */
    method PruneOldBackups(me: nat) returns (ok: bool, ghost k: nat)
      requires Valid() && Mine(me).Listing?
      modifies this
      ensures Valid() && Grows() && Mine(me).Idle? && old(|ops|) <= k < |ops| && Quiet(me, old(|ops|), k)
      ensures (ops[k] == ListFails(me) && k == |ops| - 1 && !ok) || Pruning(ops, me, k, |ops| - 1)
      ensures ok <==> ops[|ops| - 1] == PruneDone(me)
    {
      Interfere(me);
      k := |ops|;
      ok := List(me);
      if !ok { return; }
      ok := RemoveAll(me, k);
    }

    /** The removal loop: in order, up to the first failure. */
    method RemoveAll(me: nat, ghost k: nat) returns (ok: bool)
      requires Valid() && Mine(me).Removing? && Pruning(ops, me, k, |ops|)
      modifies this
      ensures Valid() && Grows() && Mine(me).Idle? && Pruning(ops, me, k, |ops| - 1)
      ensures ok <==> ops[|ops| - 1] == PruneDone(me)
    {
      var rest := |Mine(me).gone|;
      while rest > 0
        invariant Valid() && Grows() && Mine(me).Removing? && |Mine(me).gone| == rest
        invariant Pruning(ops, me, k, |ops|)
      {
        Interfere(me);
        ok := RemoveNext(me);
        if !ok { return; }
        rest := rest - 1;
      }
      Interfere(me);
      Finish(me);
      return true;
    }

    ghost predicate Quiet(me: nat, from: nat, to: nat)
      reads this`ops
    {
      to <= |ops| && forall i :: from <= i < to ==> ops[i].id != me
    }

    /** performBackup.  A wrong role takes no step at all, an overlap is turned away and counted nowhere, a
        run is counted once as what it was, at `c`, and only a success into the directory is followed by a
        prune, which lists at `k`; whatever the other triggers do in between. */
    method PerformBackup(me: nat, role: Role, pipe: bool, now: Stamp)
      returns (o: Outcome, ghost e: nat, ghost c: nat, ghost k: nat)
      requires Valid() && Mine(me).Idle?
      modifies this
      ensures Valid() && Grows() && Mine(me).Idle?
      ensures o.NotPrimary? <==> role.IsStandby?
      ensures role.RoleError? ==> o.Failed?
      ensures !role.IsPrimary? ==> ops == old(ops) && Now() == old(Now())
      ensures o.InProgress? <==> role.IsPrimary? && old(inProgress)
      ensures o.InProgress? ==> ops == old(ops) + [TurnedAway(me)] && Now() == old(Now())
      ensures role.IsPrimary? && !o.InProgress? ==>
        && old(|ops|) < e < c < |ops|
        && ops[old(|ops|)] == Begins(me, if pipe then None else Some(Format(now)))
        && ops[e] == Ends(me, o.Done?) && Quiet(me, e + 1, c) && ops[c] == Counts(me)
      ensures role.IsPrimary? && (o.Failed? || (o.Done? && pipe)) ==> c == |ops| - 1
      ensures o.Done? && !pipe ==>
        && c < k < |ops| && Quiet(me, c + 1, k)
        && ((ops[k] == ListFails(me) && k == |ops| - 1) || Pruning(ops, me, k, |ops| - 1))
    {
      e, c, k := 0, 0, 0;
      if role.RoleError? { return Failed, e, c, k; }
      if role.IsStandby? { return NotPrimary, e, c, k; }
      o := RunBackup(me, if pipe then None else Some(Format(now)));
      if o.InProgress? { return; }
      e := |ops| - 1;
      Interfere(me);
      c := |ops|;
      Count(me);
      if o.Done? && !pipe {
        var ok;
        ok, k := PruneOldBackups(me);
      }
    }
  }
}
