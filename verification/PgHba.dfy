/** hbaUpsertLine: keep one pg_hba.conf line with a given prefix up to date. */
module PgHba {
  // ------------------------------------------------------------- lines of a file

  /** strings.Split(s, "\n"): never empty. */
  function Split(s: string): (lines: seq<string>)
    ensures |lines| > 0
    ensures forall i :: 0 <= i < |lines| ==> '\n' !in lines[i]
  {
    if s == "" then [""]
    else if s[0] == '\n' then [""] + Split(s[1..])
    else var rest := Split(s[1..]); [[s[0]] + rest[0]] + rest[1..]
  }

  /** strings.Join(lines, "\n"). */
  function Join(lines: seq<string>): string {
    if lines == [] then "" else if |lines| == 1 then lines[0] else lines[0] + "\n" + Join(lines[1..])
  }

  lemma {:induction false} JoinSplit(s: string)
    ensures Join(Split(s)) == s
  {
    if s != "" {
      JoinSplit(s[1..]);
      var rest := Split(s[1..]);
      if s[0] == '\n' {
        assert ([""] + rest)[1..] == rest;
      } else {
        assert Split(s)[1..] == rest[1..];
        assert Split(s)[0] == [s[0]] + rest[0];
        if |rest| == 1 { assert rest[1..] == []; }
      }
    }
  }

  lemma {:induction false} SplitPrepend(line: string, s: string)
    requires '\n' !in line
    ensures Split(line + s) == [line + Split(s)[0]] + Split(s)[1..]
  {
    var ls := Split(s);
    if line == "" {
      assert line + s == s && line + ls[0] == ls[0];
    } else {
      assert (line + s)[1..] == line[1..] + s;
      SplitPrepend(line[1..], s);
      assert ([line[1..] + ls[0]] + ls[1..])[1..] == ls[1..];
      assert [line[0]] + (line[1..] + ls[0]) == line + ls[0];
    }
  }

  lemma {:induction false} SplitJoin(lines: seq<string>)
    requires lines != [] && forall i :: 0 <= i < |lines| ==> '\n' !in lines[i]
    ensures Split(Join(lines)) == lines
  {
    if |lines| == 1 {
      SplitPrepend(lines[0], "");
      assert lines[0] + "" == lines[0] && Split("") == [""] && lines == [lines[0]] + [""][1..];
    } else {
      SplitJoin(lines[1..]);
      var rest := "\n" + Join(lines[1..]);
      assert rest[1..] == Join(lines[1..]);
      SplitPrepend(lines[0], rest);
      assert lines[0] + rest == Join(lines);
      assert Split(rest) == [""] + lines[1..];
      assert lines[0] + "" == lines[0] && ([""] + lines[1..])[1..] == lines[1..];
    }
  }

  // ------------------------------------------------------------------- matching

  /** unicode.IsSpace. */
  predicate IsSpace(c: char) {
    var n := c as int;
    || 9 <= n <= 13 || n == 0x20 || n == 0x85 || n == 0xA0 || n == 0x1680 || 0x2000 <= n <= 0x200A
    || n == 0x2028 || n == 0x2029 || n == 0x202F || n == 0x205F || n == 0x3000
  }

  /** strings.TrimSpace. */
  function TrimSpace(s: string): string {
    if s != "" && IsSpace(s[0]) then TrimSpace(s[1..])
    else if s != "" && IsSpace(s[|s| - 1]) then TrimSpace(s[..|s| - 1])
    else s
  }

  predicate Blank(s: string) { forall i :: 0 <= i < |s| ==> IsSpace(s[i]) }

  /** Blanks at both ends go, and nothing else does. */
  lemma {:induction false} TrimsBothEnds(a: string, core: string, b: string)
    requires Blank(a) && Blank(b)
    requires core != "" ==> !IsSpace(core[0]) && !IsSpace(core[|core| - 1])
    ensures TrimSpace(a + core + b) == core
    decreases |a| + |b|
  {
    var s := a + core + b;
    if a != "" {
      assert s[1..] == a[1..] + core + b;
      TrimsBothEnds(a[1..], core, b);
    } else if core == "" && b != "" {
      assert s[1..] == "" + core + b[1..];
      TrimsBothEnds("", core, b[1..]);
    } else if b != "" {
      assert s[..|s| - 1] == a + core + b[..|b| - 1];
      TrimsBothEnds(a, core, b[..|b| - 1]);
    } else {
      assert s == core;
    }
  }

  predicate Matches(line: string, prefix: string) { prefix <= TrimSpace(line) }

  /** The lines without the prefix, in order. */
  function Others(lines: seq<string>, prefix: string): seq<string> {
    if lines == [] then [] else
      var last := lines[|lines| - 1];
      Others(lines[..|lines| - 1], prefix) + (if Matches(last, prefix) then [] else [last])
  }

  /** Some line already reads as the desired one. */
  predicate Present(lines: seq<string>, desired: string) {
    exists i | 0 <= i < |lines| :: TrimSpace(lines[i]) == desired
  }

  lemma OthersSnoc(lines: seq<string>, line: string, prefix: string)
    ensures Others(lines + [line], prefix) == Others(lines, prefix) + if Matches(line, prefix) then [] else [line]
  {
    assert (lines + [line])[..|lines|] == lines;
  }

  lemma PresentSnoc(lines: seq<string>, line: string, desired: string)
    ensures Present(lines + [line], desired) <==> Present(lines, desired) || TrimSpace(line) == desired
  {
    var longer := lines + [line];
    assert longer[|lines|] == line;
    if Present(lines, desired) {
      var i :| 0 <= i < |lines| && TrimSpace(lines[i]) == desired;
      assert longer[i] == lines[i];
    }
  }

  lemma {:induction false} OthersDoNotMatch(lines: seq<string>, prefix: string)
    ensures forall i :: 0 <= i < |Others(lines, prefix)| ==> !Matches(Others(lines, prefix)[i], prefix)
    ensures forall i :: 0 <= i < |Others(lines, prefix)| ==> Others(lines, prefix)[i] in lines
    ensures Others(Others(lines, prefix), prefix) == Others(lines, prefix)
  {
    if lines != [] {
      OthersDoNotMatch(lines[..|lines| - 1], prefix);
      var last := lines[|lines| - 1];
      var before := Others(lines[..|lines| - 1], prefix);
      if Matches(last, prefix) {
        assert Others(lines, prefix) == before;
      } else {
        OthersSnoc(before, last, prefix);
      }
    }
  }

  /** A desired line as the callers build it: trimmed, one line, starting with the prefix. */
  predicate WellFormed(prefix: string, desired: string) {
    TrimSpace(desired) == desired && '\n' !in desired && prefix <= desired
  }

  /** The file hbaUpsertLine leaves behind. */
  function Upserted(raw: string, prefix: string, desired: string): string {
    var lines := Split(raw);
    if Present(lines, desired) then raw else Join(Others(lines, prefix) + [desired])
  }

  /** How os.WriteFile ends: it truncates first, so a failure after that leaves only
      some of the new text. */
  datatype Write = Complete | NotOpened | CutShort(written: nat)

  /** hbaUpsertLine on the contents of a readable file; `after` is what the file holds then. */
  method HbaUpsertLine(raw: string, prefix: string, desired: string, write: Write)
    returns (changed: bool, after: string, failed: bool)
    requires WellFormed(prefix, desired)
    ensures failed <==> !write.Complete? && !Present(Split(raw), desired)
    ensures changed <==> write.Complete? && !Present(Split(raw), desired)
    ensures !failed ==> after == Upserted(raw, prefix, desired)
    ensures failed ==> after == raw || after <= Upserted(raw, prefix, desired)
  {
    var lines := Split(raw);
    var out: seq<string> := [];
    var upToDate := false;
    var i := 0;
    while i < |lines|
      invariant 0 <= i <= |lines|
      invariant out == Others(lines[..i], prefix)
      invariant upToDate <==> Present(lines[..i], desired)
    {
      assert lines[..i + 1] == lines[..i] + [lines[i]];
      OthersSnoc(lines[..i], lines[i], prefix);
      PresentSnoc(lines[..i], lines[i], desired);
      var trimmed := TrimSpace(lines[i]);
      if !(prefix <= trimmed) {
        out := out + [lines[i]];
      } else if trimmed == desired {
        upToDate := true;
      }
      i := i + 1;
    }
    assert lines[..i] == lines;
    if upToDate { return false, raw, false; }
    out := out + [desired];
    var text := Join(out);
    match write
    case Complete => return true, text, false;
    case NotOpened => return false, raw, true;
    case CutShort(n) => return false, if n <= |text| then text[..n] else text, true;
  }

  /** Every line without the prefix survives, in order and unchanged. */
  lemma UpsertKeepsOthers(raw: string, prefix: string, desired: string)
    requires WellFormed(prefix, desired)
    ensures Others(Split(Upserted(raw, prefix, desired)), prefix) == Others(Split(raw), prefix)
  {
    if !Present(Split(raw), desired) {
      UpsertedLines(raw, prefix, desired);
      OthersSnoc(Others(Split(raw), prefix), desired, prefix);
      OthersDoNotMatch(Split(raw), prefix);
    }
  }

  lemma UpsertedLines(raw: string, prefix: string, desired: string)
    requires WellFormed(prefix, desired) && !Present(Split(raw), desired)
    ensures Split(Upserted(raw, prefix, desired)) == Others(Split(raw), prefix) + [desired]
  {
    OthersDoNotMatch(Split(raw), prefix);
    SplitJoin(Others(Split(raw), prefix) + [desired]);
  }

  /** The desired line is there afterwards, so a second call changes nothing. */
  lemma UpsertIsIdempotent(raw: string, prefix: string, desired: string)
    requires WellFormed(prefix, desired)
    ensures Present(Split(Upserted(raw, prefix, desired)), desired)
    ensures Upserted(Upserted(raw, prefix, desired), prefix, desired) == Upserted(raw, prefix, desired)
  {
    if !Present(Split(raw), desired) {
      UpsertedLines(raw, prefix, desired);
      var lines := Split(Upserted(raw, prefix, desired));
      assert TrimSpace(lines[|lines| - 1]) == desired;
    }
  }

  /** A file that was changed has exactly one line with the prefix, and it is last. */
  lemma ChangedFileHasOneMatch(raw: string, prefix: string, desired: string)
    requires WellFormed(prefix, desired)
    requires Upserted(raw, prefix, desired) != raw
    ensures var lines := Split(Upserted(raw, prefix, desired));
      && lines[|lines| - 1] == desired
      && forall i :: 0 <= i < |lines| ==> (Matches(lines[i], prefix) <==> i == |lines| - 1)
  {
    UpsertedLines(raw, prefix, desired);
    OthersDoNotMatch(Split(raw), prefix);
    assert Matches(desired, prefix);
  }

  /** The file is rewritten exactly when the desired line was missing: when it is
      present, stale lines with the same prefix are left where they are. */
  lemma ChangedExactlyWhenMissing(raw: string, prefix: string, desired: string)
    requires WellFormed(prefix, desired)
    ensures Upserted(raw, prefix, desired) == raw <==> Present(Split(raw), desired)
  {
    UpsertIsIdempotent(raw, prefix, desired);
  }

  lemma StaleDuplicateStays() returns (raw: string, prefix: string, desired: string)
    ensures WellFormed(prefix, desired)
    ensures Upserted(raw, prefix, desired) == raw
    ensures Split(raw) == ["r a", "r b"] && Matches("r a", prefix) && desired == "r b"
  {
    prefix, desired := "r ", "r b";
    SplitJoin(["r a", "r b"]);
    raw := Join(["r a", "r b"]);
    assert TrimSpace("r a") == "r a" && TrimSpace("r b") == "r b";
    assert TrimSpace(Split(raw)[1]) == desired;
  }

  /** Exactly one line has the prefix. */
  ghost predicate OneMatch(lines: seq<string>, prefix: string) {
    exists i :: 0 <= i < |lines| && Matches(lines[i], prefix) &&
      forall j :: 0 <= j < |lines| && Matches(lines[j], prefix) ==> j == i
  }

  /** Superseded lines are dropped, so that exactly one line has the prefix, if and only if the desired
      line was missing or there was only one such line to begin with. */
  lemma OneMatchExactly(raw: string, prefix: string, desired: string)
    requires WellFormed(prefix, desired)
    ensures OneMatch(Split(Upserted(raw, prefix, desired)), prefix) <==>
      !Present(Split(raw), desired) || OneMatch(Split(raw), prefix)
  {
    if !Present(Split(raw), desired) {
      ChangedExactlyWhenMissing(raw, prefix, desired);
      ChangedFileHasOneMatch(raw, prefix, desired);
      var lines := Split(Upserted(raw, prefix, desired));
      assert Matches(lines[|lines| - 1], prefix);
    }
  }

  lemma {:induction false} NothingToDrop(lines: seq<string>, prefix: string)
    requires forall i :: 0 <= i < |lines| ==> !Matches(lines[i], prefix)
    ensures Others(lines, prefix) == lines
  {
    if lines != [] { NothingToDrop(lines[..|lines| - 1], prefix); }
  }

  lemma {:induction false} JoinSnoc(lines: seq<string>, line: string)
    requires lines != []
    ensures Join(lines + [line]) == Join(lines) + "\n" + line
  {
    assert (lines + [line])[1..] == lines[1..] + [line];
    if |lines| > 1 { JoinSnoc(lines[1..], line); }
  }

  /** A file without such a line is extended by one line and otherwise left as it was, byte for byte. */
  lemma FirstUpsertAppends(raw: string, prefix: string, desired: string)
    requires WellFormed(prefix, desired)
    requires forall i :: 0 <= i < |Split(raw)| ==> !Matches(Split(raw)[i], prefix)
    ensures Upserted(raw, prefix, desired) == raw + "\n" + desired
  {
    NothingToDrop(Split(raw), prefix);
    JoinSnoc(Split(raw), desired);
    JoinSplit(raw);
  }
}
