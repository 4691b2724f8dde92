/** The failover probe: write numbered rows at whichever node is primary, time the
    outages, then compare what was acknowledged with what is durable. */
module HaTest {
  import opened Types

  // ------------------------------------------------------------- one look at the pair

  /** NodeConn.role: an answer, or a SQLException. */
  datatype Reading = Primary | NotPrimary | Error

  predicate Sole(readings: seq<Reading>, node: nat) {
    && node < |readings| && readings[node] == Primary
    && forall other :: 0 <= other < |readings| && other != node ==> readings[other] != Primary
  }

  predicate SplitBrain(readings: seq<Reading>) {
    exists i, j :: 0 <= i < j < |readings| && readings[i] == Primary && readings[j] == Primary
  }

  /** findPrimary, given what the nodes answered in turn. */
  method FindPrimary(readings: seq<Reading>) returns (found: Option<nat>, splitBrain: bool)
    ensures found.Some? ==> Sole(readings, found.value)
    ensures found.None? ==> forall node: nat :: !Sole(readings, node)
    ensures splitBrain <==> SplitBrain(readings)
  {
    var primaries: seq<nat> := [];
    for i := 0 to |readings|
      invariant forall k :: 0 <= k < |primaries| ==> primaries[k] < i && readings[primaries[k]] == Primary
      invariant forall j, k :: 0 <= j < k < |primaries| ==> primaries[j] < primaries[k]
      invariant forall node :: 0 <= node < i && readings[node] == Primary ==> node in primaries
    {
      if readings[i] == Primary { primaries := primaries + [i]; }
    }
    if |primaries| == 1 { return Some(primaries[0]), false; }
    if |primaries| > 1 { assert readings[primaries[0]] == readings[primaries[1]] == Primary; }
    return None, |primaries| > 1;
  }

  predicate NoSole(readings: seq<Reading>) { forall node :: 0 <= node < |readings| ==> !Sole(readings, node) }

  // ---------------------------------------------------------------- the write loop

  /** One numbered attempt: what the nodes answered, when, what became of creating the table and of
      writing the row if they were tried, and whether the row counts as acknowledged. */
  datatype Try = Try(readings: seq<Reading>, at: int, table: Option<bool>, row: Option<bool>, acked: bool)

  predicate Served(t: Try) { exists node :: 0 <= node < |t.readings| && Sole(t.readings, node) }

  /** The table is known to exist after these attempts. */
  predicate Ready(tries: seq<Try>) { exists k :: 0 <= k < |tries| && tries[k].table == Some(true) }

  /** An attempt creates the table once, writes its row to the one primary, and counts what was answered. */
  predicate Orderly(before: seq<Try>, t: Try) {
    && (t.table.Some? <==> Served(t) && !Ready(before))
    && (t.row.Some? <==> Served(t) && (Ready(before) || t.table == Some(true)))
    && (t.acked <==> t.row == Some(true))
  }

  predicate AllOrderly(tries: seq<Try>) { forall k :: 0 <= k < |tries| ==> Orderly(tries[..k], tries[k]) }

  lemma {:induction false} OrderlyNext(tries: seq<Try>, t: Try)
    requires AllOrderly(tries) && Orderly(tries, t)
    ensures AllOrderly(tries + [t])
    ensures Ready(tries + [t]) <==> Ready(tries) || t.table == Some(true)
  {
    var more := tries + [t];
    forall k | 0 <= k < |more| ensures Orderly(more[..k], more[k]) {
      assert more[..k] == if k < |tries| then tries[..k] else tries;
    }
    if Ready(tries) {
      var k :| 0 <= k < |tries| && tries[k].table == Some(true);
      assert more[k] == tries[k];
    }
    assert more[|tries|] == t;
  }

  /** Attempts are at least the write interval apart. */
  predicate Spaced(tries: seq<Try>, begin: int, interval: nat) {
    && (tries != [] ==> begin + interval <= tries[0].at)
    && forall k :: 0 < k < |tries| ==> tries[k - 1].at + interval <= tries[k].at
  }

  /** Every answer the nodes gave, in order. */
  datatype Reply = Roles(readings: seq<Reading>) | Table(ok: bool) | Row(ok: bool) | Rows(present: Option<set<nat>>)

  function Replies(t: Try): seq<Reply> {
    [Roles(t.readings)] + (if t.table.Some? then [Table(t.table.value)] else [])
      + (if t.row.Some? then [Row(t.row.value)] else [])
  }

  function AllReplies(tries: seq<Try>): seq<Reply> {
    if tries == [] then [] else AllReplies(tries[..|tries| - 1]) + Replies(tries[|tries| - 1])
  }

  predicate Clocked(tries: seq<Try>) {
    forall j, k :: 0 <= j < k < |tries| ==> tries[j].at <= tries[k].at
  }

  /** The sequence numbers whose write was acknowledged. */
  function Acknowledged(tries: seq<Try>): set<nat> { set k | 0 <= k < |tries| && tries[k].acked :: k + 1 }

  datatype Window = Window(start: int, end: int)

  /** The outage windows of the attempts so far, and the start of one still open. */
  datatype Outages = Outages(closed: seq<Window>, open: Option<int>)

  function Watch(tries: seq<Try>): Outages {
    if tries == [] then Outages([], None)
    else
      var before, t := Watch(tries[..|tries| - 1]), tries[|tries| - 1];
      if !Served(t) then Outages(before.closed, if before.open.None? then Some(t.at) else before.open)
      else if before.open.Some? then Outages(before.closed + [Window(before.open.value, t.at)], None)
      else before
  }

  function Close(o: Outages, end: int): seq<Window> {
    if o.open.Some? then o.closed + [Window(o.open.value, end)] else o.closed
  }

  datatype Block = Block(lo: nat, hi: nat)

  /** A longest stretch of attempts without a primary to write to. */
  predicate IsBlock(tries: seq<Try>, b: Block) {
    && b.lo < b.hi <= |tries|
    && (forall k :: b.lo <= k < b.hi ==> !Served(tries[k]))
    && (b.lo > 0 ==> Served(tries[b.lo - 1]))
    && (b.hi < |tries| ==> Served(tries[b.hi]))
  }

  predicate Times(tries: seq<Try>, b: Block, end: int, w: Window)
    requires b.lo < b.hi <= |tries|
  {
    w == Window(tries[b.lo].at, if b.hi < |tries| then tries[b.hi].at else end)
  }

  predicate InOrder(blocks: seq<Block>) {
    forall i, j :: 0 <= i < j < |blocks| ==> blocks[i].hi < blocks[j].lo
  }

  ghost predicate Covered(blocks: seq<Block>, k: nat) {
    exists i :: 0 <= i < |blocks| && blocks[i].lo <= k < blocks[i].hi
  }

  /** `blocks` are all the stretches before attempt `n`, in order, and `windows` their times. */
  ghost predicate Describes(tries: seq<Try>, n: nat, blocks: seq<Block>, windows: seq<Window>, end: int)
    requires n <= |tries|
  {
    && InOrder(blocks) && |blocks| == |windows|
    && (forall i :: 0 <= i < |blocks| ==> IsBlock(tries, blocks[i]) && Times(tries, blocks[i], end, windows[i]))
    && (forall i :: 0 <= i < |blocks| ==> blocks[i].hi <= n)
    && (forall k {:trigger Covered(blocks, k)} :: 0 <= k < n && !Served(tries[k]) ==> Covered(blocks, k))
  }

  lemma {:induction false} OneMoreStretch(
    tries: seq<Try>, blocks: seq<Block>, windows: seq<Window>, b: Block, end: int, w: Window)
    requires b.lo < b.hi <= |tries| && Describes(tries, b.lo, blocks, windows, end)
    requires IsBlock(tries, b) && Times(tries, b, end, w)
    ensures Describes(tries, b.hi, blocks + [b], windows + [w], end)
  {
    forall i | 0 <= i < |blocks| ensures blocks[i].hi < b.lo {
      assert IsBlock(tries, blocks[i]);
      assert !Served(tries[b.lo]);
    }
    forall k {:trigger Covered(blocks + [b], k)} | 0 <= k < b.hi && !Served(tries[k]) ensures Covered(blocks + [b], k) {
      if k < b.lo {
        assert Covered(blocks, k);
        var i :| 0 <= i < |blocks| && blocks[i].lo <= k < blocks[i].hi;
        assert (blocks + [b])[i] == blocks[i];
      } else {
        assert (blocks + [b])[|blocks|] == b;
      }
    }
  }

  lemma {:induction false} OneMoreServed(tries: seq<Try>, n: nat, blocks: seq<Block>, windows: seq<Window>, end: int)
    requires n < |tries| && Describes(tries, n, blocks, windows, end) && Served(tries[n])
    ensures Describes(tries, n + 1, blocks, windows, end)
  {
  }

  /** The stretches among the attempts before `n`, and where the last, unfinished one begins. */
  ghost predicate Follows(tries: seq<Try>, n: nat, o: Outages, blocks: seq<Block>, lo: nat, end: int)
    requires n <= |tries|
  {
    && lo <= n
    && Describes(tries, lo, blocks, o.closed, end)
    && (forall k :: lo <= k < n ==> !Served(tries[k]))
    && (lo > 0 ==> Served(tries[lo - 1]))
    && o.open == if lo < n then Some(tries[lo].at) else None
  }

  lemma {:induction false} WatchFollows(tries: seq<Try>, n: nat, end: int) returns (blocks: seq<Block>, lo: nat)
    requires n <= |tries|
    ensures Follows(tries, n, Watch(tries[..n]), blocks, lo, end)
  {
    if n == 0 { return [], 0; }
    blocks, lo := WatchFollows(tries, n - 1, end);
    assert tries[..n][..n - 1] == tries[..n - 1];
    if Served(tries[n - 1]) {
      var before := Watch(tries[..n - 1]);
      if lo < n - 1 {
        var b := Block(lo, n - 1);
        OneMoreStretch(tries, blocks, before.closed, b, end, Window(tries[lo].at, tries[n - 1].at));
        blocks := blocks + [b];
      }
      OneMoreServed(tries, n - 1, blocks, Watch(tries[..n]).closed, end);
      lo := n;
    }
  }

  /** The reported windows are exactly the longest stretches of attempts without a single primary, each
      from its first attempt to the first served one after it, or to the end of the run. */
  lemma {:induction false} WindowsAreTheOutages(tries: seq<Try>, end: int) returns (blocks: seq<Block>)
    ensures Describes(tries, |tries|, blocks, Close(Watch(tries), end), end)
  {
    var lo;
    blocks, lo := WatchFollows(tries, |tries|, end);
    assert tries[..|tries|] == tries;
    if lo < |tries| {
      var b := Block(lo, |tries|);
      OneMoreStretch(tries, blocks, Watch(tries).closed, b, end, Window(tries[lo].at, end));
      blocks := blocks + [b];
    }
  }

  lemma {:induction false} SpacedNext(tries: seq<Try>, t: Try, begin: int, interval: nat)
    requires Spaced(tries, begin, interval)
    requires (if tries == [] then begin else tries[|tries| - 1].at) + interval <= t.at
    ensures Spaced(tries + [t], begin, interval)
  {
    var more := tries + [t];
    forall k | 0 < k < |more| ensures more[k - 1].at + interval <= more[k].at {
      assert more[k - 1] == tries[k - 1];
      if k < |tries| { assert more[k] == tries[k]; }
    }
    if tries != [] { assert more[0] == tries[0]; }
  }

  lemma {:induction false} SpacedEarlier(tries: seq<Try>, begin: int, earlier: int, interval: nat)
    requires Spaced(tries, begin, interval) && earlier <= begin
    ensures Spaced(tries, earlier, interval)
  {
  }

  lemma {:induction false} SpacedIsClocked(tries: seq<Try>, begin: int, interval: nat, j: nat, k: nat)
    requires Spaced(tries, begin, interval) && j < k < |tries|
    ensures tries[j].at <= tries[k].at
    decreases k
  {
    if j < k - 1 { SpacedIsClocked(tries, begin, interval, j, k - 1); }
  }

  predicate Ordered(windows: seq<Window>) {
    && (forall i :: 0 <= i < |windows| ==> windows[i].start <= windows[i].end)
    && (forall i, j :: 0 <= i < j < |windows| ==> windows[i].end <= windows[j].start)
  }

  /** With a clock that never goes back the windows follow each other without overlap, inside the run. */
  lemma {:induction false} WindowsAreOrdered(tries: seq<Try>, begin: int, end: int)
    requires Clocked(tries)
    requires forall k :: 0 <= k < |tries| ==> begin <= tries[k].at <= end
    ensures Ordered(Close(Watch(tries), end))
    ensures forall w <- Close(Watch(tries), end) :: begin <= w.start && w.end <= end
  {
    var windows := Close(Watch(tries), end);
    var blocks := WindowsAreTheOutages(tries, end);
    forall i, j | 0 <= i < j < |windows| ensures windows[i].end <= windows[j].start {
      assert Times(tries, blocks[i], end, windows[i]) && Times(tries, blocks[j], end, windows[j]);
    }
    forall i | 0 <= i < |windows| ensures begin <= windows[i].start <= windows[i].end <= end {
      assert Times(tries, blocks[i], end, windows[i]);
    }
  }

  // ------------------------------------------------------------------- validation

  function UpTo(n: nat): (all: set<nat>)
    ensures forall k :: k in all <==> 1 <= k <= n
    ensures |all| == n
  {
    if n == 0 then {} else UpTo(n - 1) + {n}
  }

  predicate Increasing(s: seq<nat>) { forall i, j :: 0 <= i < j < |s| ==> s[i] < s[j] }

  /** `s` lists the numbers of a set in order. */
  predicate Lists(s: seq<nat>, all: set<nat>) {
    Increasing(s) && (forall i :: 0 <= i < |s| ==> s[i] in all) && (forall k <- all :: k in s) && |s| == |all|
  }

  lemma {:induction false} UpToNext(n: nat, all: set<nat>)
    ensures UpTo(n + 1) * all == if n + 1 in all then UpTo(n) * all + {n + 1} else UpTo(n) * all
    ensures |UpTo(n + 1) * all| == |UpTo(n) * all| + if n + 1 in all then 1 else 0
  {
  }

  lemma {:induction false} ListsNext(s: seq<nat>, n: nat, all: set<nat>)
    requires Lists(s, UpTo(n) * all)
    ensures Lists(if n + 1 in all then s + [n + 1] else s, UpTo(n + 1) * all)
  {
    UpToNext(n, all);
    if n + 1 in all { assert (s + [n + 1])[|s|] == n + 1; }
  }

  /** The classification loop of the validation pass. */
  method Classify(attempted: nat, committed: set<nat>, present: set<nat>)
      returns (lost: seq<nat>, gaps: seq<nat>, notAcknowledged: nat)
    ensures Lists(lost, UpTo(attempted) * (committed - present))
    ensures Lists(gaps, UpTo(attempted) * (present - committed))
    ensures notAcknowledged == |UpTo(attempted) - committed - present|
  {
    lost, gaps, notAcknowledged := [], [], 0;
    ghost var neither := UpTo(attempted) - committed - present;
    for seq_ := 1 to attempted + 1
      invariant Lists(lost, UpTo(seq_ - 1) * (committed - present))
      invariant Lists(gaps, UpTo(seq_ - 1) * (present - committed))
      invariant notAcknowledged == |UpTo(seq_ - 1) * neither|
    {
      ListsNext(lost, seq_ - 1, committed - present);
      ListsNext(gaps, seq_ - 1, present - committed);
      UpToNext(seq_ - 1, neither);
      if seq_ in committed && seq_ !in present {
        lost := lost + [seq_];
      } else if seq_ !in committed && seq_ !in present {
        notAcknowledged := notAcknowledged + 1;
      } else if seq_ !in committed && seq_ in present {
        gaps := gaps + [seq_];
      }
    }
    assert UpTo(attempted) * neither == neither;
  }

  /** Every attempt is in one of the four classes, and the rows found are the commits that were not lost
      and the gaps. */
  lemma {:induction false} Accounted(all: set<nat>, committed: set<nat>, present: set<nat>)
    requires committed <= all
    ensures var lost, gaps := committed - present, all * (present - committed);
      && |all| == |lost| + |gaps| + |all - committed - present| + |committed * present|
      && |committed| - |lost| + |gaps| == |all * present|
  {
    var gaps := all * (present - committed);
    Halves(committed, present);
    Halves(all * present, committed);
    assert all * present * committed == committed * present && all * present - committed == gaps;
    Halves(all, committed);
    assert all * committed == committed;
    Halves(all - committed, present);
    assert (all - committed) * present == gaps;
  }

  lemma {:induction false} Halves(whole: set<nat>, part: set<nat>)
    ensures |whole| == |whole * part| + |whole - part|
  {
    assert whole == whole * part + (whole - part);
  }

  // ----------------------------------------------------------------------- a run

  datatype Note = NoNote | NoPrimaryAtStart | CouldNotValidate | CouldNotQuery | GapsExplained

  datatype Report = Report(
    started: int, finished: int, attempted: nat, committedByClient: nat, presentInDb: nat,
    notAcknowledged: nat, lost: seq<nat>, gaps: seq<nat>, outages: seq<Window>, ok: bool, note: Note)

  /** The report's windows are those of the attempts, all of which fall into the run. */
  ghost predicate Timed(rep: Report, tries: seq<Try>) {
    exists end {:trigger Close(Watch(tries), end)} ::
      && rep.started <= end <= rep.finished && rep.outages == Close(Watch(tries), end)
      && forall k :: 0 <= k < |tries| ==> rep.started <= tries[k].at <= end
  }

  /** Every answer of a whole run. */
  function Story(first: seq<Reading>, tries: seq<Try>, last: seq<Reading>, present: Option<set<nat>>): seq<Reply> {
    if NoSole(first) then [Roles(first)]
    else [Roles(first)] + AllReplies(tries) + Ending(last, present)
  }

  lemma {:induction false} InARow(a: seq<Reply>, b: seq<Reply>, c: seq<Reply>)
    ensures a + (b + c) == a + b + c
  {
  }

  function Ending(last: seq<Reading>, present: Option<set<nat>>): seq<Reply> {
    [Roles(last)] + if NoSole(last) then [] else [Rows(present)]
  }

  /** The clock, the operator's Ctrl+C, and the two nodes; every answer is chosen freely. */
  class Bench {
    var nanos: nat
    var interrupted: bool         // set by the shutdown hook at any time, never reset
    ghost var replies: seq<Reply>

    method CurrentTimeMillis() returns (ms: int)
      ensures ms == Millis()
    {
      return nanos / 1000000;
    }

    function Millis(): int reads this { nanos / 1000000 }

    /** Any call takes some time, in which the operator may interrupt. */
    method Take(atLeast: nat)
      modifies this`nanos, this`interrupted
      ensures nanos > old(nanos) && nanos >= old(nanos) + atLeast && (old(interrupted) ==> interrupted)
    {
      var extra :| extra >= 0;
      nanos := nanos + atLeast + extra + 1;
      var now: bool := *;
      interrupted := interrupted || now;
    }

    /** NodeConn.role on each node. */
    method AskRoles() returns (readings: seq<Reading>)
      modifies this
      ensures |readings| == 2 && nanos > old(nanos) && (old(interrupted) ==> interrupted)
      ensures replies == old(replies) + [Roles(readings)]
    {
      var r1, r2 := *, *;
      Take(0);
      readings := [r1, r2];
      replies := replies + [Roles(readings)];
    }

    method EnsureTable() returns (ok: bool)
      modifies this
      ensures nanos > old(nanos) && (old(interrupted) ==> interrupted) && replies == old(replies) + [Table(ok)]
    {
      Take(0);
      ok := *;
      replies := replies + [Table(ok)];
    }

    /** The insert: acknowledged, or a SQLException. */
    method WriteRow() returns (ok: bool)
      modifies this
      ensures nanos > old(nanos) && (old(interrupted) ==> interrupted) && replies == old(replies) + [Row(ok)]
    {
      Take(0);
      ok := *;
      replies := replies + [Row(ok)];
    }

    /** SELECT local_seq: whatever rows of the run are there. */
    method QueryPresentSeqs() returns (present: Option<set<nat>>)
      modifies this
      ensures nanos > old(nanos) && (old(interrupted) ==> interrupted) && replies == old(replies) + [Rows(present)]
    {
      Take(0);
      present := *;
      replies := replies + [Rows(present)];
    }

    /** One attempt, without the bookkeeping of outages. */
    method Attempt(ready: bool, ghost before: seq<Try>) returns (t: Try)
      requires ready <==> Ready(before)
      modifies this
      ensures Orderly(before, t) && replies == old(replies) + Replies(t)
      ensures old(Millis()) <= t.at <= Millis() && nanos > old(nanos) && (old(interrupted) ==> interrupted)
    {
      var readings := AskRoles();
      var primary, _ := FindPrimary(readings);
      var at := CurrentTimeMillis();
      t := Try(readings, at, None, None, false);
      if primary.None? { return; }
      assert Served(t);
      var usable := ready;
      if !ready {
        usable := EnsureTable();
        t := t.(table := Some(usable));
      }
      if usable {
        var acked := WriteRow();
        t := t.(row := Some(acked), acked := acked);
      }
    }

    /** The outage windows after one more attempt. */
    method Track(outages: seq<Window>, start: Option<int>, t: Try, ghost tries: seq<Try>)
        returns (outages': seq<Window>, start': Option<int>)
      requires Outages(outages, start) == Watch(tries)
      ensures Outages(outages', start') == Watch(tries + [t])
    {
      assert (tries + [t])[..|tries|] == tries;
      outages', start' := outages, start;
      if !Served(t) {
        if start.None? { start' := Some(t.at); }
      } else if start.Some? {
        outages', start' := outages + [Window(start.value, t.at)], None;
      }
    }

    /** The write loop, until the deadline or an interruption; `tries` records what each attempt met. */
    method WriteUntil(deadline: int, interval: nat)
        returns (attempted: nat, committed: set<nat>, outages: seq<Window>, tries: seq<Try>, end: int)
      modifies this
      ensures attempted == |tries| && committed == Acknowledged(tries)
      ensures outages == Close(Watch(tries), end)
      ensures AllOrderly(tries) && Spaced(tries, old(Millis()), interval)
      ensures replies == old(replies) + AllReplies(tries)
      ensures forall k :: 0 <= k < |tries| ==> old(Millis()) <= tries[k].at <= end
      ensures old(Millis()) <= end <= Millis() && old(nanos) <= nanos
      ensures end >= deadline || interrupted
    {
      attempted, committed, outages, tries := 0, {}, [], [];
      var outageStart: Option<int> := None;
      var tableEnsured := false;
      var now := CurrentTimeMillis();
      while now < deadline && !interrupted
        invariant attempted == |tries| && Outages(outages, outageStart) == Watch(tries)
        invariant Progress(tries, old(Millis()), interval, committed, tableEnsured, now)
        invariant replies == old(replies) + AllReplies(tries)
        invariant now == Millis() && old(nanos) <= nanos
        decreases deadline * 1000000 - nanos
      {
        Take(interval * 1000000);
        if interrupted { break; }
        attempted := attempted + 1;
        var t := Attempt(tableEnsured, tries);
        outages, outageStart := Track(outages, outageStart, t, tries);
        if t.acked { committed := committed + {attempted}; }
        tableEnsured := tableEnsured || t.table == Some(true);
        ghost var later := Millis();
        ProgressNext(tries, t, old(Millis()), interval, now, later);
        InARow(old(replies), AllReplies(tries), Replies(t));
        tries := tries + [t];
        now := CurrentTimeMillis();
      }
      end := CurrentTimeMillis();
      if outageStart.Some? { outages := outages + [Window(outageStart.value, end)]; }
    }

    /** `tries` and `present` are what the run met, between what the nodes said at the start and at the
        end; the report accounts for all of it. */
    method RunTest(duration: nat, interval: nat)
        returns (rep: Report, tries: seq<Try>, present: Option<set<nat>>, first: seq<Reading>, last: seq<Reading>)
      modifies this
      ensures rep.attempted == |tries| && rep.committedByClient == |Acknowledged(tries)|
      ensures AllOrderly(tries) && Spaced(tries, rep.started, interval) && Clocked(tries)
      ensures rep.started == old(Millis()) <= rep.finished && Timed(rep, tries)
      ensures rep.note == NoPrimaryAtStart <==> NoSole(first)
      ensures rep.note == NoPrimaryAtStart ==> tries == [] && present.None? && !rep.ok
      ensures !NoSole(first) ==> rep.finished >= rep.started + duration * 1000 || interrupted
      ensures !NoSole(first) ==> (rep.note == CouldNotValidate <==> NoSole(last))
      ensures !NoSole(first) && !NoSole(last) ==> (rep.note == CouldNotQuery <==> present.None?)
      ensures present.None? ==> !rep.ok && rep.note in {NoPrimaryAtStart, CouldNotValidate, CouldNotQuery}
      ensures present.Some? ==> AccountsFor(rep, tries, present.value)
      ensures replies == old(replies) + Story(first, tries, last, present)
    {
      var started := CurrentTimeMillis();
      first := AskRoles();
      tries, present, last := [], None, [];
      var initial, _ := FindPrimary(first);
      if initial.None? {
        var finished := CurrentTimeMillis();
        rep := Report(started, finished, 0, 0, 0, 0, [], [], [], false, NoPrimaryAtStart);
        assert rep.outages == Close(Watch(tries), finished);
        return;
      }
      rep, tries, present, last := Measure(started, duration, interval);
      InARow(old(replies), [Roles(first)], AllReplies(tries));
      InARow(old(replies), [Roles(first)] + AllReplies(tries), Ending(last, present));
    }

    /** A run past its first look: writing, then validation. */
    method Measure(started: int, duration: nat, interval: nat)
        returns (rep: Report, tries: seq<Try>, present: Option<set<nat>>, last: seq<Reading>)
      requires started <= Millis()
      modifies this
      ensures rep.started == started && rep.attempted == |tries| && rep.committedByClient == |Acknowledged(tries)|
      ensures AllOrderly(tries) && Spaced(tries, started, interval) && Clocked(tries) && Timed(rep, tries)
      ensures rep.started <= rep.finished
      ensures rep.finished >= started + duration * 1000 || interrupted
      ensures rep.note != NoPrimaryAtStart && (rep.note == CouldNotValidate <==> NoSole(last))
      ensures rep.note == CouldNotQuery <==> !NoSole(last) && present.None?
      ensures present.None? ==> !rep.ok
      ensures present.Some? ==> !NoSole(last) && AccountsFor(rep, tries, present.value)
      ensures replies == old(replies) + AllReplies(tries) + Ending(last, present)
    {
      rep, tries := WriteAndReport(started, duration, interval);
      ghost var written := rep;
      rep, present, last := Validate(rep, Acknowledged(tries), tries);
      StillTimed(written, rep, tries);
    }

    /** The write loop and what is reported of it before validation. */
    method WriteAndReport(started: int, duration: nat, interval: nat) returns (rep: Report, tries: seq<Try>)
      requires started <= Millis()
      modifies this
      ensures AllOrderly(tries) && Spaced(tries, started, interval) && Clocked(tries)
      ensures replies == old(replies) + AllReplies(tries)
      ensures rep == Report(started, rep.finished, |tries|, |Acknowledged(tries)|, 0, 0, [], [], rep.outages,
                            false, CouldNotValidate)
      ensures Timed(rep, tries)
      ensures rep.finished >= started + duration * 1000 || interrupted
    {
      var attempted, committed, outages, end;
      attempted, committed, outages, tries, end := WriteUntil(started + duration * 1000, interval);
      var finished := CurrentTimeMillis();
      rep := Report(started, finished, attempted, |committed|, 0, 0, [], [], outages, false, CouldNotValidate);
      forall j, k | 0 <= j < k < |tries| ensures tries[j].at <= tries[k].at {
        SpacedIsClocked(tries, old(Millis()), interval, j, k);
      }
      SpacedEarlier(tries, old(Millis()), started, interval);
      assert rep.outages == Close(Watch(tries), end);
    }

    /** The validation pass fills in what became of the rows. */
    method Validate(rep: Report, committed: set<nat>, ghost tries: seq<Try>)
        returns (full: Report, present: Option<set<nat>>, last: seq<Reading>)
      requires rep.attempted == |tries| && committed == Acknowledged(tries) && rep.committedByClient == |committed|
      requires !rep.ok && rep.note == CouldNotValidate
      modifies this
      ensures old(interrupted) ==> interrupted
      ensures full == rep.(presentInDb := full.presentInDb, lost := full.lost, gaps := full.gaps,
                           notAcknowledged := full.notAcknowledged, ok := full.ok, note := full.note)
      ensures full.note != NoPrimaryAtStart && (full.note == CouldNotValidate <==> NoSole(last))
      ensures full.note == CouldNotQuery <==> !NoSole(last) && present.None?
      ensures present.None? ==> !full.ok
      ensures present.Some? ==> !NoSole(last) && AccountsFor(full, tries, present.value)
      ensures replies == old(replies) + Ending(last, present)
    {
      full, present := rep, None;
      Take(500 * 1000000);
      last := AskRoles();
      assert [Roles(last)] + [] == [Roles(last)];
      var primary, _ := FindPrimary(last);
      if primary.None? { return; }
      present := QueryPresentSeqs();
      InARow(old(replies), [Roles(last)], [Rows(present)]);
      if present.None? { full := full.(note := CouldNotQuery); return; }
      var lost, gaps, notAcknowledged := Classify(rep.attempted, committed, present.value);
      full := full.(presentInDb := |present.value|, lost := lost, gaps := gaps, notAcknowledged := notAcknowledged,
                    ok := lost == [], note := if gaps != [] then GapsExplained else NoNote);
      ReportAccounts(full, tries, present.value);
    }
  }

  /** What the write loop has established at time `now`. */
  ghost predicate Progress(tries: seq<Try>, begin: int, interval: nat, committed: set<nat>, ready: bool, now: int) {
    && committed == Acknowledged(tries)
    && AllOrderly(tries) && (ready <==> Ready(tries)) && Spaced(tries, begin, interval) && begin <= now
    && forall k :: 0 <= k < |tries| ==> begin <= tries[k].at <= now
  }

  lemma {:induction false} ProgressNext(tries: seq<Try>, t: Try, begin: int, interval: nat, now: int, later: int)
    requires Progress(tries, begin, interval, Acknowledged(tries), Ready(tries), now)
    requires Orderly(tries, t) && now + interval <= t.at <= later
    ensures Progress(tries + [t], begin, interval,
      Acknowledged(tries) + (if t.acked then {|tries| + 1} else {}), Ready(tries) || t.table == Some(true), later)
    ensures AllReplies(tries + [t]) == AllReplies(tries) + Replies(t)
  {
    TryNext(tries, t, begin, interval);
    var more := tries + [t];
    forall k | 0 <= k < |more| ensures begin <= more[k].at <= later {
      assert more[k] == if k < |tries| then tries[k] else t;
    }
  }

  /** Everything that one more attempt adds to. */
  lemma {:induction false} TryNext(tries: seq<Try>, t: Try, begin: int, interval: nat)
    requires AllOrderly(tries) && Orderly(tries, t) && Spaced(tries, begin, interval)
    requires (if tries == [] then begin else tries[|tries| - 1].at) + interval <= t.at
    ensures (tries + [t])[..|tries|] == tries
    ensures AllOrderly(tries + [t]) && Spaced(tries + [t], begin, interval)
    ensures Ready(tries + [t]) <==> Ready(tries) || t.table == Some(true)
    ensures Acknowledged(tries + [t]) == Acknowledged(tries) + if t.acked then {|tries| + 1} else {}
    ensures AllReplies(tries + [t]) == AllReplies(tries) + Replies(t)
  {
    assert (tries + [t])[..|tries|] == tries;
    AcknowledgedNext(tries, t);
    OrderlyNext(tries, t);
    SpacedNext(tries, t, begin, interval);
  }

  lemma {:induction false} AcknowledgedNext(tries: seq<Try>, t: Try)
    ensures Acknowledged(tries + [t]) == Acknowledged(tries) + if t.acked then {|tries| + 1} else {}
  {
    var longer := tries + [t];
    forall n ensures n in Acknowledged(longer) <==> n in Acknowledged(tries) || (t.acked && n == |tries| + 1) {
      if n in Acknowledged(tries) { assert longer[n - 1] == tries[n - 1]; }
      if t.acked && n == |tries| + 1 { assert longer[|tries|].acked; }
    }
  }

  /** The report of a validated run. */
  predicate AccountsFor(rep: Report, tries: seq<Try>, present: set<nat>) {
    var committed := Acknowledged(tries);
    && Lists(rep.lost, committed - present)
    && Lists(rep.gaps, UpTo(|tries|) * (present - committed))
    && (rep.ok <==> committed <= present)
    && rep.attempted == |rep.lost| + |rep.gaps| + rep.notAcknowledged + |committed * present|
    && rep.committedByClient - |rep.lost| + |rep.gaps| == |UpTo(|tries|) * present|
    && rep.presentInDb == |present|
  }

  lemma {:induction false} StillTimed(rep: Report, full: Report, tries: seq<Try>)
    requires Timed(rep, tries)
    requires full.started == rep.started && full.finished == rep.finished && full.outages == rep.outages
    ensures Timed(full, tries) && full.started <= full.finished
  {
    var end {:trigger Close(Watch(tries), end)} :| && rep.started <= end <= rep.finished
      && rep.outages == Close(Watch(tries), end)
      && forall k :: 0 <= k < |tries| ==> rep.started <= tries[k].at <= end;
    assert full.outages == Close(Watch(tries), end);
  }

  lemma {:induction false} ReportAccounts(rep: Report, tries: seq<Try>, present: set<nat>)
    requires rep.attempted == |tries| && rep.committedByClient == |Acknowledged(tries)| && rep.presentInDb == |present|
    requires Lists(rep.lost, UpTo(|tries|) * (Acknowledged(tries) - present))
    requires Lists(rep.gaps, UpTo(|tries|) * (present - Acknowledged(tries)))
    requires rep.notAcknowledged == |UpTo(|tries|) - Acknowledged(tries) - present|
    requires rep.ok <==> rep.lost == []
    ensures AccountsFor(rep, tries, present)
  {
    var committed := Acknowledged(tries);
    Accounted(UpTo(|tries|), committed, present);
    assert UpTo(|tries|) * (committed - present) == committed - present;
    if rep.lost == [] {
      forall k | k in committed ensures k in present { assert k !in committed - present; }
    } else {
      assert rep.lost[0] in committed - present;
    }
  }
}
