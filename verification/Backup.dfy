/** Backup retention: timestamped directories, pruned by count. */
module Backup {
  // ---------------------------------------------------------------- ordered strings

  /** Go's string order, on which sort.Strings is based. */
  predicate Less(a: string, b: string) {
    b != "" && (a == "" || a[0] < b[0] || (a[0] == b[0] && Less(a[1..], b[1..])))
  }

  predicate Sorted(names: seq<string>) {
    forall i, j :: 0 <= i < j < |names| ==> Less(names[i], names[j])
  }

  lemma {:induction false} LessTransitive(a: string, b: string, c: string)
    requires Less(a, b) && Less(b, c)
    ensures Less(a, c)
  {
    if a != "" && a[0] == b[0] == c[0] { LessTransitive(a[1..], b[1..], c[1..]); }
  }

  lemma {:induction false} LessTotal(a: string, b: string)
    ensures Less(a, b) || a == b || Less(b, a)
    ensures !(Less(a, b) && Less(b, a)) && !Less(a, a)
  {
    if a != "" && b != "" && a[0] == b[0] {
      LessTotal(a[1..], b[1..]);
      assert a == [a[0]] + a[1..] && b == [b[0]] + b[1..];
    }
    if a != "" { LessTotal(a[1..], a[1..]); }
  }

  // --------------------------------------------------------------------- timestamps

  /** A UTC instant to the second, as time.Format prints it. */
  datatype Stamp = Stamp(year: nat, month: nat, day: nat, hour: nat, minute: nat, second: nat)

  predicate ValidStamp(t: Stamp) {
    t.year < 10000 && t.month < 100 && t.day < 100 && t.hour < 100 && t.minute < 100 && t.second < 100
  }

  /** Chronological order of UTC instants. */
  predicate Before(a: Stamp, b: Stamp) {
    || a.year < b.year
    || (a.year == b.year && (a.month < b.month
    || (a.month == b.month && (a.day < b.day
    || (a.day == b.day && (a.hour < b.hour
    || (a.hour == b.hour && (a.minute < b.minute
    || (a.minute == b.minute && a.second < b.second)))))))))
  }

  function Digit(d: nat): char
    requires d < 10
  {
    '0' + d as char
  }

  /** A number in exactly `width` decimal digits. */
  function Pad(n: nat, width: nat): (s: string)
    ensures |s| == width
    ensures forall i :: 0 <= i < width ==> '0' <= s[i] <= '9'
  {
    if width == 0 then "" else Pad(n / 10, width - 1) + [Digit(n % 10)]
  }

  function Pow10(width: nat): nat { if width == 0 then 1 else 10 * Pow10(width - 1) }

  /** backupTimestampFormat, 20060102T150405Z. */
  function Format(t: Stamp): string {
    Pad(t.year, 4) + (Pad(t.month, 2) + (Pad(t.day, 2)
    + ("T" + (Pad(t.hour, 2) + (Pad(t.minute, 2) + (Pad(t.second, 2) + "Z"))))))
  }

  predicate IsDigit(c: char) { '0' <= c <= '9' }

  /** backupDirNamePattern. */
  predicate IsBackupName(s: string) {
    && |s| == 16 && s[8] == 'T' && s[15] == 'Z'
    && forall i :: 0 <= i < 15 && i != 8 ==> IsDigit(s[i])
  }

  /** Strings of one length compare by their first parts, and then by the rest. */
  lemma {:induction false} LessConcat(a: string, b: string, x: string, y: string)
    requires |a| == |b|
    ensures Less(a + x, b + y) <==> Less(a, b) || (a == b && Less(x, y))
  {
    if a == "" {
      assert a + x == x && b + y == y;
    } else {
      assert (a + x)[1..] == a[1..] + x && (b + y)[1..] == b[1..] + y;
      LessConcat(a[1..], b[1..], x, y);
      assert a == [a[0]] + a[1..] && b == [b[0]] + b[1..];
    }
  }

  lemma {:induction false} PadOrder(m: nat, n: nat, width: nat)
    requires m < Pow10(width) && n < Pow10(width)
    ensures Less(Pad(m, width), Pad(n, width)) <==> m < n
    ensures Pad(m, width) == Pad(n, width) <==> m == n
  {
    if width > 0 {
      PadOrder(m / 10, n / 10, width - 1);
      LessConcat(Pad(m / 10, width - 1), Pad(n / 10, width - 1), [Digit(m % 10)], [Digit(n % 10)]);
      assert [Digit(m % 10)][1..] == "" && [Digit(n % 10)][1..] == "";
      assert Pad(m, width)[..width - 1] == Pad(m / 10, width - 1);
      assert Pad(n, width)[..width - 1] == Pad(n / 10, width - 1);
      assert Pad(m, width)[width - 1] == Digit(m % 10) && Pad(n, width)[width - 1] == Digit(n % 10);
    }
  }

  /** The format makes lexical order chronological order, and never prints two instants alike. */
  lemma FormatOrder(a: Stamp, b: Stamp)
    requires ValidStamp(a) && ValidStamp(b)
    ensures Less(Format(a), Format(b)) <==> Before(a, b)
    ensures Format(a) == Format(b) <==> a == b
  {
    assert Pow10(2) == 100 && Pow10(4) == 10000 by { assert Pow10(0) == 1 && Pow10(1) == 10 && Pow10(3) == 1000; }
    var sa, sb := Pad(a.second, 2), Pad(b.second, 2);
    var na, nb := Pad(a.minute, 2) + (sa + "Z"), Pad(b.minute, 2) + (sb + "Z");
    var ha, hb := "T" + (Pad(a.hour, 2) + na), "T" + (Pad(b.hour, 2) + nb);
    var da, db := Pad(a.day, 2) + ha, Pad(b.day, 2) + hb;
    PartOrder(a.second, b.second, 2, "Z", "Z");
    PartOrder(a.minute, b.minute, 2, sa + "Z", sb + "Z");
    PartOrder(a.hour, b.hour, 2, na, nb);
    LessConcat("T", "T", Pad(a.hour, 2) + na, Pad(b.hour, 2) + nb);
    LessTotal("T", "T");
    LessTotal("Z", "Z");
    TailEqual("T", Pad(a.hour, 2) + na, Pad(b.hour, 2) + nb);
    PartOrder(a.day, b.day, 2, ha, hb);
    PartOrder(a.month, b.month, 2, da, db);
    PartOrder(a.year, b.year, 4, Pad(a.month, 2) + da, Pad(b.month, 2) + db);
  }

  lemma PartOrder(m: nat, n: nat, width: nat, x: string, y: string)
    requires m < Pow10(width) && n < Pow10(width)
    ensures Less(Pad(m, width) + x, Pad(n, width) + y) <==> m < n || (m == n && Less(x, y))
    ensures Pad(m, width) + x == Pad(n, width) + y <==> m == n && x == y
  {
    PadOrder(m, n, width);
    LessConcat(Pad(m, width), Pad(n, width), x, y);
    assert (Pad(m, width) + x)[..width] == Pad(m, width) && (Pad(n, width) + y)[..width] == Pad(n, width);
    assert (Pad(m, width) + x)[width..] == x && (Pad(n, width) + y)[width..] == y;
  }

  lemma TailEqual(head: string, x: string, y: string)
    ensures head + x == head + y <==> x == y
  {
    assert (head + x)[|head|..] == x && (head + y)[|head|..] == y;
  }

  lemma FormatIsBackupName(t: Stamp)
    ensures IsBackupName(Format(t))
  {
  }

  predicate Digits(s: string) { forall i :: 0 <= i < |s| ==> IsDigit(s[i]) }

  function Value(s: string): nat
    requires Digits(s)
  {
    if s == "" then 0 else Value(s[..|s| - 1]) * 10 + (s[|s| - 1] as int - '0' as int)
  }

  lemma {:induction false} PadValue(s: string)
    requires Digits(s)
    ensures Pad(Value(s), |s|) == s && Value(s) < Pow10(|s|)
  {
    if s != "" {
      var init, last := s[..|s| - 1], s[|s| - 1];
      PadValue(init);
      assert IsDigit(last);
      OneMoreDigit(Value(init), last as int - '0' as int);
      assert Digit(last as int - '0' as int) == last;
      assert s == init + [last];
    }
  }

  lemma OneMoreDigit(n: nat, d: nat)
    requires d < 10
    ensures (n * 10 + d) / 10 == n && (n * 10 + d) % 10 == d
  {
  }

  lemma Joined(s: string)
    requires |s| == 16 && s[8] == 'T' && s[15] == 'Z'
    ensures s == s[..4] + (s[4..6] + (s[6..8] + ("T" + (s[9..11] + (s[11..13] + (s[13..15] + "Z"))))))
  {
    assert s[13..] == s[13..15] + "Z";
    assert s[11..] == s[11..13] + s[13..] && s[9..] == s[9..11] + s[11..];
    assert s[8..] == "T" + s[9..];
    assert s[6..] == s[6..8] + s[8..] && s[4..] == s[4..6] + s[6..];
    assert s == s[..4] + s[4..];
  }

  /** The retention pattern matches nothing but dates: a directory it does not match is none of ours. */
  lemma NamesAreStamps(s: string)
    ensures IsBackupName(s) <==> exists t :: ValidStamp(t) && Format(t) == s
  {
    if IsBackupName(s) {
      PadValue(s[..4]);
      PadValue(s[4..6]);
      PadValue(s[6..8]);
      PadValue(s[9..11]);
      PadValue(s[11..13]);
      PadValue(s[13..15]);
      assert Pow10(2) == 100 && Pow10(4) == 10000 by { assert Pow10(0) == 1 && Pow10(1) == 10 && Pow10(3) == 1000; }
      var t := Stamp(
        Value(s[..4]), Value(s[4..6]), Value(s[6..8]), Value(s[9..11]), Value(s[11..13]), Value(s[13..15]));
      Joined(s);
      assert ValidStamp(t) && Format(t) == s;
    } else if t :| ValidStamp(t) && Format(t) == s {
      FormatIsBackupName(t);
    }
  }

  // ------------------------------------------------------------------------ pruning

  /** The subdirectories retention counts; `entries` maps each name to whether it is a directory. */
  function Backups(entries: map<string, bool>): set<string> {
    set name | name in entries && entries[name] && IsBackupName(name)
  }

  /** `gone` is a set of oldest names of `all`: every name that is not in it is newer than all of it. */
  ghost predicate AreOldest(gone: set<string>, all: set<string>) {
    gone <= all && forall x, y | x in gone && y in all - gone :: Less(x, y)
  }

  function SetOf(names: seq<string>): set<string> { set i | 0 <= i < |names| :: names[i] }

  predicate Distinct(names: seq<string>) {
    forall i, j :: 0 <= i < j < |names| ==> names[i] != names[j]
  }

  /** sort.Strings on distinct names. */
  function Insert(name: string, sorted: seq<string>): seq<string> {
    if sorted == [] || Less(name, sorted[0]) then [name] + sorted
    else [sorted[0]] + Insert(name, sorted[1..])
  }

  function SortStrings(names: seq<string>): seq<string> {
    if names == [] then [] else Insert(names[0], SortStrings(names[1..]))
  }

  lemma {:induction false} InsertAdds(name: string, sorted: seq<string>)
    ensures multiset(Insert(name, sorted)) == multiset(sorted) + multiset{name}
    ensures forall x :: x in Insert(name, sorted) <==> x == name || x in sorted
  {
    if sorted != [] && !Less(name, sorted[0]) {
      InsertAdds(name, sorted[1..]);
      assert sorted == [sorted[0]] + sorted[1..];
    }
  }

  lemma {:induction false} InsertSorts(name: string, sorted: seq<string>)
    requires Sorted(sorted) && name !in sorted
    ensures Sorted(Insert(name, sorted))
  {
    if sorted != [] {
      if Less(name, sorted[0]) {
        forall j | 0 <= j < |sorted| ensures Less(name, sorted[j]) {
          if j > 0 { LessTransitive(name, sorted[0], sorted[j]); }
        }
      } else {
        InsertSorts(name, sorted[1..]);
        InsertAdds(name, sorted[1..]);
        LessTotal(name, sorted[0]);
        forall x | x in sorted[1..] ensures Less(sorted[0], x) {}
      }
    }
  }

  lemma {:induction false} SortStringsSorts(names: seq<string>)
    requires Distinct(names)
    ensures Sorted(SortStrings(names))
    ensures multiset(SortStrings(names)) == multiset(names)
  {
    if names != [] {
      var rest := SortStrings(names[1..]);
      SortStringsSorts(names[1..]);
      assert names == [names[0]] + names[1..];
      assert names[0] !in rest by { assert names[0] in rest <==> names[0] in multiset(names[1..]); }
      InsertSorts(names[0], rest);
      InsertAdds(names[0], rest);
    }
  }

  lemma {:induction false} SizeOfDistinct(names: seq<string>)
    requires Distinct(names)
    ensures |SetOf(names)| == |names|
  {
    if names != [] {
      SizeOfDistinct(names[1..]);
      assert names[0] !in SetOf(names[1..]);
      assert SetOf(names) == SetOf(names[1..]) + {names[0]} by {
        forall x | x in SetOf(names) ensures x in SetOf(names[1..]) + {names[0]} {
          var i :| 0 <= i < |names| && names[i] == x;
          assert i > 0 ==> names[1..][i - 1] == x;
        }
      }
    }
  }

  /** A front part of a sorted list of names holds the oldest ones. */
  lemma FrontIsOldest(sorted: seq<string>, k: nat)
    requires Sorted(sorted) && k <= |sorted|
    ensures AreOldest(SetOf(sorted[..k]), SetOf(sorted))
    ensures |SetOf(sorted)| == |sorted| && |SetOf(sorted) - SetOf(sorted[..k])| == |sorted| - k
  {
    forall i, j | 0 <= i < j < |sorted| ensures sorted[i] != sorted[j] { LessTotal(sorted[i], sorted[j]); }
    SizeOfDistinct(sorted);
    SizeOfDistinct(sorted[..k]);
    forall x | x in SetOf(sorted[..k]) ensures x in SetOf(sorted) {
      var i :| 0 <= i < k && sorted[..k][i] == x;
      assert sorted[i] == x;
    }
    forall x, y | x in SetOf(sorted[..k]) && y in SetOf(sorted) - SetOf(sorted[..k]) ensures Less(x, y) {
      var i :| 0 <= i < k && sorted[..k][i] == x;
      var j :| 0 <= j < |sorted| && sorted[j] == y;
    }
  }

  lemma SortedIsSameSet(names: seq<string>)
    requires Distinct(names)
    ensures Sorted(SortStrings(names))
    ensures SetOf(SortStrings(names)) == SetOf(names) && |SortStrings(names)| == |names|
  {
    SortStringsSorts(names);
    var sorted := SortStrings(names);
    assert |multiset(sorted)| == |multiset(names)|;
    forall x ensures x in SetOf(sorted) <==> x in SetOf(names) {
      assert x in SetOf(sorted) <==> x in multiset(sorted);
      assert x in SetOf(names) <==> x in multiset(names);
    }
  }

  /** What a prune may do: take away some of the oldest backups, never so many that fewer than `retain`
      are left, and as many as it should when it succeeds. */
  ghost predicate Pruned(before: map<string, bool>, after: map<string, bool>, retain: nat, ok: bool) {
    var all, left := Backups(before), Backups(after);
    && left <= all
    && after == before - (all - left)
    && AreOldest(all - left, all)
    && (all == left || |left| >= retain)
    && (ok ==> |left| == if |all| <= retain then |all| else retain)
  }

  function Newer(all: set<string>, name: string): set<string> { set other | other in all && Less(name, other) }

  lemma SubsetIsSmaller(a: set<string>, b: set<string>)
    requires a <= b
    ensures |a| <= |b|
    ensures a != b ==> |a| < |b|
  {
    assert b == a + (b - a);
    assert |b| == |a| + |b - a|;
    if |b - a| == 0 { assert b - a == {}; }
  }

  /** A backup outlives a successful prune exactly when fewer than `retain` are newer than it. */
  lemma SurvivesExactly(before: map<string, bool>, after: map<string, bool>, retain: nat, name: string)
    requires Pruned(before, after, retain, true) && name in Backups(before)
    ensures name in Backups(after) <==> |Newer(Backups(before), name)| < retain
  {
    var all, left := Backups(before), Backups(after);
    var newer := Newer(all, name);
    LessTotal(name, name);
    if name in left {
      forall other | other in newer ensures other in left - {name} {
        LessTotal(other, name);
      }
      SubsetIsSmaller(newer, left - {name});
    } else {
      assert left <= newer;
      SubsetIsSmaller(left, newer);
      SubsetIsSmaller(left, all);
    }
  }

  /** The names a prune removes: all but the `retain` newest of those it listed, oldest first. */
  function Excess(names: seq<string>, retain: nat): seq<string> {
    if |names| <= retain then [] else Firsts(SortStrings(names), |names| - retain)
  }

  function Firsts(names: seq<string>, n: nat): seq<string> { if n <= |names| then names[..n] else names }

  /** They are exactly the backups that at least `retain` others are newer than. */
  lemma ExcessExactly(entries: map<string, bool>, names: seq<string>, retain: nat, name: string)
    requires Distinct(names) && SetOf(names) == Backups(entries) && name in Backups(entries)
    ensures name in SetOf(Excess(names, retain)) <==> |Newer(Backups(entries), name)| >= retain
  {
    SortedIsSameSet(names);
    var k := if |names| <= retain then 0 else |names| - retain;
    assert Excess(names, retain) == SortStrings(names)[..k];
    FrontPruned(entries, SortStrings(names), k, retain);
    SurvivesExactly(entries, entries - SetOf(Excess(names, retain)), retain, name);
  }

  /** Any first part of them is a pruning. */
  lemma ExcessPrunes(entries: map<string, bool>, names: seq<string>, retain: nat, r: nat)
    requires Distinct(names) && SetOf(names) == Backups(entries)
    requires r <= |Excess(names, retain)|
    ensures Pruned(entries, entries - SetOf(Excess(names, retain)[..r]), retain, r == |Excess(names, retain)|)
    ensures SetOf(Excess(names, retain)[..r]) <= Backups(entries)
  {
    SortedIsSameSet(names);
    var sorted := SortStrings(names);
    if r > 0 { assert Excess(names, retain)[..r] == sorted[..r]; } else { assert sorted[..0] == []; }
    FrontPruned(entries, sorted, r, retain);
    FrontIsOldest(sorted, r);
  }

  /** Every backup so far is dated no later than `now`. */
  ghost predicate NoneLater(entries: map<string, bool>, now: Stamp) {
    forall name | name in Backups(entries) :: exists t :: ValidStamp(t) && Format(t) == name && !Before(now, t)
  }

  lemma NoneNewer(entries: map<string, bool>, now: Stamp, name: string)
    requires ValidStamp(now) && NoneLater(entries, now) && name in Backups(entries)
    ensures !Less(Format(now), name)
  {
    var t :| ValidStamp(t) && Format(t) == name && !Before(now, t);
    FormatOrder(now, t);
  }

  lemma SetOfSnoc(names: seq<string>, name: string)
    ensures SetOf(names + [name]) == SetOf(names) + {name}
  {
    forall x ensures x in SetOf(names + [name]) <==> x in SetOf(names) + {name} {
      if x in SetOf(names) {
        var i :| 0 <= i < |names| && names[i] == x;
        assert (names + [name])[i] == x;
      }
      assert (names + [name])[|names|] == name;
    }
  }

  lemma SetOfNext(names: seq<string>, i: nat)
    requires i < |names|
    ensures SetOf(names[..i + 1]) == SetOf(names[..i]) + {names[i]}
  {
    SetOfSnoc(names[..i], names[i]);
    assert names[..i + 1] == names[..i] + [names[i]];
  }

  /** Removing the first k names of the sorted list is a pruning; a complete one if k is all of the excess. */
  lemma FrontPruned(entries: map<string, bool>, sorted: seq<string>, k: nat, retain: nat)
    requires Sorted(sorted) && SetOf(sorted) == Backups(entries)
    requires k == 0 || k <= |sorted| - retain
    ensures var excess := if |sorted| <= retain then 0 else |sorted| - retain;
      Pruned(entries, entries - SetOf(sorted[..k]), retain, k == excess)
  {
    FrontIsOldest(sorted, k);
    assert Backups(entries) - Backups(entries - SetOf(sorted[..k])) == SetOf(sorted[..k]);
    assert Backups(entries - SetOf(sorted[..k])) == Backups(entries) - SetOf(sorted[..k]);
  }
}
