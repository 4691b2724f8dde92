/** savePersistedState run by several goroutines at once over one temporary name, step by step. */
module SharedSaves {
  import opened Types

  /** How far a save has got, and the file it opened; that file may have another name by then. */
  datatype Stage = Opened(file: nat) | Written(file: nat)

  /** The two names, the contents of every file they ever stood for, and the saves under way. */
  datatype Volume = Volume(target: Option<nat>, tmp: Option<nat>, files: seq<string>, saves: map<nat, Stage>)

  datatype Op =
    | Opens(id: nat)                   // os.WriteFile opens and truncates
    | Writes(id: nat, text: string)    // ... and writes from the start of the file it opened
    | Renames(id: nat)
    | Fails(id: nat)                   // the save returns an error at any point
    | Dies                             // the process ends, with every save under way

  /** Marshalled counters: one flat object. */
  predicate IsText(text: string) {
    text != "" && text[|text| - 1] == '}' && '}' !in text[..|text| - 1]
  }

  ghost predicate WellFormed(v: Volume) {
    && (v.target.Some? ==> v.target.value < |v.files|)
    && (v.tmp.Some? ==> v.tmp.value < |v.files| && v.tmp != v.target)
    && (forall id | id in v.saves :: v.saves[id].file < |v.files|)
  }

  type Disk = v: Volume | WellFormed(v) witness Volume(None, None, [], map[])

  /** A write replaces the beginning of a file and leaves what is longer. */
  function Overlay(text: string, before: string): string {
    if |before| <= |text| then text else text + before[|text|..]
  }

  ghost predicate Enabled(v: Disk, op: Op) {
    match op
    case Opens(id) => id !in v.saves
    case Writes(id, text) => id in v.saves && v.saves[id].Opened? && IsText(text)
    case Renames(id) => id in v.saves && v.saves[id].Written?
    case Fails(id) => id in v.saves
    case Dies => true
  }

  ghost function Apply(v: Disk, op: Op): Disk
    requires Enabled(v, op)
  {
    match op
    case Opens(id) =>
      if v.tmp.Some? then v.(files := v.files[v.tmp.value := ""], saves := v.saves[id := Opened(v.tmp.value)])
      else v.(tmp := Some(|v.files|), files := v.files + [""], saves := v.saves[id := Opened(|v.files|)])
    case Writes(id, text) =>
      var file := v.saves[id].file;
      v.(files := v.files[file := Overlay(text, v.files[file])], saves := v.saves[id := Written(file)])
    case Renames(id) =>
      if v.tmp.Some? then v.(target := v.tmp, tmp := None, saves := v.saves - {id}) else v.(saves := v.saves - {id})
    case Fails(id) => v.(saves := v.saves - {id})
    case Dies => v.(saves := map[])
  }

  /** Any interleaving, from any volume a process can find. */
  ghost predicate Run(ops: seq<Op>, vs: seq<Disk>) {
    && |vs| == |ops| + 1 && vs[0].saves == map[]
    && forall i :: 0 <= i < |ops| ==> Step(ops, vs, i)
  }

  ghost predicate Step(ops: seq<Op>, vs: seq<Disk>, i: nat)
    requires i < |ops| && |vs| == |ops| + 1
  {
    Enabled(vs[i], ops[i]) && vs[i + 1] == Apply(vs[i], ops[i])
  }

  ghost function Stored(v: Disk): Option<string> {
    if v.target.Some? then Some(v.files[v.target.value]) else None
  }

  /** The state file is absent or holds one complete text. */
  ghost predicate Whole(v: Disk) { Stored(v).Some? ==> IsText(Stored(v).value) }

  // ------------------------------------------------------------- what a file holds

  /** Step `j` opens or writes file `f`. */
  ghost predicate Accesses(ops: seq<Op>, vs: seq<Disk>, j: nat, f: nat)
    requires j < |ops| && |vs| == |ops| + 1
  {
    || (ops[j].Opens? && vs[j + 1].tmp == Some(f))
    || (ops[j].Writes? && ops[j].id in vs[j].saves && vs[j].saves[ops[j].id].file == f)
  }

  ghost predicate LastAccess(ops: seq<Op>, vs: seq<Disk>, f: nat, j: nat, n: nat) {
    && j < n <= |ops| && |vs| == |ops| + 1 && Accesses(ops, vs, j, f)
    && forall i :: j < i < n ==> !Accesses(ops, vs, i, f)
  }

  /** Step `j` writes file `f`, and no less than the file held. */
  ghost predicate Covers(ops: seq<Op>, vs: seq<Disk>, j: nat, f: nat)
    requires j < |ops| && |vs| == |ops| + 1
  {
    ops[j].Writes? && f < |vs[j].files| && |ops[j].text| >= |vs[j].files[f]|
  }

  lemma OverlayIsText(text: string, before: string)
    requires IsText(text)
    ensures IsText(Overlay(text, before)) <==> |before| <= |text|
  {
    var all := Overlay(text, before);
    if |before| > |text| {
      assert all[..|all| - 1][|text| - 1] == text[|text| - 1];
    }
  }

  /** A file is one complete text exactly when the last access to it was a write that covered it; then
      it is that text. */
  lemma {:induction false} ContentExactly(ops: seq<Op>, vs: seq<Disk>, f: nat, j: nat, n: nat)
    requires Run(ops, vs) && LastAccess(ops, vs, f, j, n)
    ensures f < |vs[n].files|
    ensures IsText(vs[n].files[f]) <==> Covers(ops, vs, j, f)
    ensures Covers(ops, vs, j, f) ==> vs[n].files[f] == ops[j].text
    decreases n
  {
    assert Step(ops, vs, n - 1);
    if j == n - 1 {
      if ops[j].Writes? { OverlayIsText(ops[j].text, vs[j].files[f]); }
    } else {
      ContentExactly(ops, vs, f, j, n - 1);
      assert !Accesses(ops, vs, n - 1, f);
    }
  }

  lemma {:induction false} FindLast(ops: seq<Op>, vs: seq<Disk>, f: nat, i: nat, n: nat) returns (j: nat)
    requires |vs| == |ops| + 1 && i < n <= |ops| && Accesses(ops, vs, i, f)
    ensures LastAccess(ops, vs, f, j, n)
    decreases n
  {
    if Accesses(ops, vs, n - 1, f) { j := n - 1; } else { j := FindLast(ops, vs, f, i, n - 1); }
  }

  /** Once a save has begun, the temporary name stands for a file that some save opened. */
  lemma {:induction false} TmpWasOpened(ops: seq<Op>, vs: seq<Disk>, a: nat, n: nat) returns (i: nat)
    requires Run(ops, vs) && a < n <= |ops| && ops[a].Opens? && vs[n].tmp.Some?
    ensures i < n && Accesses(ops, vs, i, vs[n].tmp.value)
    decreases n
  {
    assert Step(ops, vs, n - 1);
    if ops[n - 1].Opens? {
      i := n - 1;
    } else {
      i := TmpWasOpened(ops, vs, a, n - 1);
    }
  }

  lemma {:induction false} SaveHasBegun(ops: seq<Op>, vs: seq<Disk>, n: nat, id: nat) returns (a: nat)
    requires Run(ops, vs) && n <= |ops| && id in vs[n].saves
    ensures a < n && ops[a] == Opens(id)
  {
    assert Step(ops, vs, n - 1);
    if ops[n - 1] == Opens(id) { a := n - 1; } else { a := SaveHasBegun(ops, vs, n - 1, id); }
  }

  // ----------------------------------------------------------------- what tears it

  /** A rename makes a torn file the state file if and only if the last access to the temporary file
      before it was an open, or a write shorter than what the file held. */
  lemma RenameTearsExactly(ops: seq<Op>, vs: seq<Disk>, k: nat) returns (j: nat)
    requires Run(ops, vs) && k < |ops| && ops[k].Renames? && vs[k].tmp.Some?
    ensures LastAccess(ops, vs, vs[k].tmp.value, j, k)
    ensures vs[k + 1].target == vs[k].tmp
    ensures !Whole(vs[k + 1]) <==> !Covers(ops, vs, j, vs[k].tmp.value)
  {
    assert Step(ops, vs, k);
    var f := vs[k].tmp.value;
    var a := SaveHasBegun(ops, vs, k, ops[k].id);
    var i := TmpWasOpened(ops, vs, a, k);
    j := FindLast(ops, vs, f, i, k);
    ContentExactly(ops, vs, f, j, k);
  }

  /** A save whose file was renamed away under it before it wrote. */
  ghost predicate WritesLate(v: Disk, op: Op) {
    op.Writes? && op.id in v.saves && v.target == Some(v.saves[op.id].file)
  }

  /** Such a late write leaves the state file whole exactly when it covers what is there. */
  lemma LateWriteTearsExactly(ops: seq<Op>, vs: seq<Disk>, k: nat)
    requires Run(ops, vs) && k < |ops| && WritesLate(vs[k], ops[k])
    ensures !Whole(vs[k + 1]) <==> |ops[k].text| < |Stored(vs[k]).value|
  {
    assert Step(ops, vs, k);
    OverlayIsText(ops[k].text, Stored(vs[k]).value);
  }

  /** Nothing else touches it, the end of the process included. */
  lemma NothingElseTouches(ops: seq<Op>, vs: seq<Disk>, k: nat)
    requires Run(ops, vs) && k < |ops|
    requires !(ops[k].Renames? && vs[k].tmp.Some?) && !WritesLate(vs[k], ops[k])
    ensures Stored(vs[k + 1]) == Stored(vs[k])
  {
    assert Step(ops, vs, k);
  }

  /** So at every moment of every run a state file that a save has touched is one complete text if and only
      if the last access to it, under whichever name, was a write that covered it. */
  lemma StateFileIsWholeExactly(ops: seq<Op>, vs: seq<Disk>, j: nat, n: nat)
    requires Run(ops, vs) && n <= |ops| && vs[n].target.Some?
    requires LastAccess(ops, vs, vs[n].target.value, j, n)
    ensures Whole(vs[n]) <==> Covers(ops, vs, j, vs[n].target.value)
    ensures Whole(vs[n]) ==> Stored(vs[n]) == Some(ops[j].text)
  {
    ContentExactly(ops, vs, vs[n].target.value, j, n);
  }

  // ------------------------------------------------------------- one after another

  /** At most one save is under way at any time. */
  ghost predicate OneAtATime(vs: seq<Disk>) {
    forall i :: 0 <= i < |vs| ==> |vs[i].saves| <= 1
  }

  ghost predicate Orderly(v: Disk) {
    && Whole(v)
    && forall id | id in v.saves ::
         v.tmp == Some(v.saves[id].file)
         && if v.saves[id].Opened? then v.files[v.saves[id].file] == "" else IsText(v.files[v.saves[id].file])
  }

  lemma NoneOther(saves: map<nat, Stage>, a: nat, b: nat)
    requires |saves| <= 1 && a in saves && b in saves
    ensures a == b
  {
    var rest := saves.Keys - {a};
    assert |rest| == |saves.Keys| - 1;
    assert rest == {};
  }

  lemma StepStaysOrderly(v: Disk, op: Op)
    requires Orderly(v) && Enabled(v, op) && |v.saves| <= 1 && |Apply(v, op).saves| <= 1
    ensures Orderly(Apply(v, op))
  {
    var after := Apply(v, op);
    if op.Opens? || op.Writes? {
      forall id | id in after.saves ensures id == op.id { NoneOther(after.saves, id, op.id); }
      if op.Writes? { OverlayIsText(op.text, v.files[v.saves[op.id].file]); }
    }
    if op.Renames? || op.Fails? {
      forall id | id in v.saves ensures id == op.id { NoneOther(v.saves, id, op.id); }
    }
  }

  /** Without overlap the state file is whole at every moment, wherever the process may die. */
  lemma {:induction false} SavesInTurnStayWhole(ops: seq<Op>, vs: seq<Disk>, n: nat)
    requires Run(ops, vs) && n <= |ops| && Whole(vs[0]) && OneAtATime(vs)
    ensures Orderly(vs[n])
  {
    if n > 0 {
      assert Step(ops, vs, n - 1);
      SavesInTurnStayWhole(ops, vs, n - 1);
      StepStaysOrderly(vs[n - 1], ops[n - 1]);
    }
  }

  /** One save with nobody beside it: the state file is what it was up to the rename and the saved text from
      then on, so an event of the sequential histories in StateFile is what its steps amount to. */
  lemma SaveInTurn(v: Disk, id: nat, text: string)
    requires v.saves == map[] && IsText(text)
    ensures var begun := Apply(v, Opens(id));
      var written := Apply(begun, Writes(id, text));
      var renamed := Apply(written, Renames(id));
      Stored(begun) == Stored(v) && Stored(written) == Stored(v)
      && Stored(renamed) == Some(text) && renamed.tmp.None? && renamed.saves == map[]
  {
    var begun := Apply(v, Opens(id));
    assert begun.files[begun.tmp.value] == "" && begun.saves[id] == Opened(begun.tmp.value);
    var written := Apply(begun, Writes(id, text));
    assert written.files[begun.tmp.value] == text;
  }

  // --------------------------------------------------------------------- witnesses

  /** A second save opens between the first one's write and its rename: the first one renames an empty file
      over a good one and reports success, and a crash leaves it so. */
  lemma OverlappingSavesTear(good: string, text: string) returns (ops: seq<Op>, vs: seq<Disk>)
    requires IsText(good) && IsText(text)
    ensures Run(ops, vs) && |ops| == 5 && ops[3] == Renames(0) && ops[4].Dies?
    ensures Stored(vs[0]) == Some(good) && Stored(vs[3]) == Some(good) && Stored(vs[5]) == Some("")
  {
    ops := [Opens(0), Writes(0, text), Opens(1), Renames(0), Dies];
    vs := [Volume(Some(0), None, [good], map[]),
           Volume(Some(0), Some(1), [good, ""], map[0 := Opened(1)]),
           Volume(Some(0), Some(1), [good, text], map[0 := Written(1)]),
           Volume(Some(0), Some(1), [good, ""], map[0 := Written(1), 1 := Opened(1)]),
           Volume(Some(1), None, [good, ""], map[1 := Opened(1)]),
           Volume(Some(1), None, [good, ""], map[])];
    forall i | 0 <= i < 5 ensures Step(ops, vs, i) {}
  }

  /** Two saves that opened the same file and write texts of different length, the shorter one last, leave
      a mixture. */
  lemma ShorterSaveMixes(long: string, short: string) returns (ops: seq<Op>, vs: seq<Disk>)
    requires IsText(long) && IsText(short) && |short| < |long|
    ensures Run(ops, vs) && |ops| == 5 && ops[4] == Renames(0)
    ensures Stored(vs[5]) == Some(short + long[|short|..]) && !Whole(vs[5])
  {
    var mixed := Overlay(short, long);
    OverlayIsText(short, long);
    ops := [Opens(0), Opens(1), Writes(0, long), Writes(1, short), Renames(0)];
    vs := [Volume(None, None, [], map[]),
           Volume(None, Some(0), [""], map[0 := Opened(0)]),
           Volume(None, Some(0), [""], map[0 := Opened(0), 1 := Opened(0)]),
           Volume(None, Some(0), [long], map[0 := Written(0), 1 := Opened(0)]),
           Volume(None, Some(0), [mixed], map[0 := Written(0), 1 := Written(0)]),
           Volume(Some(0), None, [mixed], map[1 := Written(0)])];
    forall i | 0 <= i < 5 ensures Step(ops, vs, i) {}
  }
}
