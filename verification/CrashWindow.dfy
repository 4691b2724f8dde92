/** crashTimestamps and recordCrashAndCheckLimit: a slice compacted in place. */
module CrashWindow {
  import opened Journal

  /** Filtering twice with a growing cutoff is filtering once. */
  lemma {:induction false} AfterAfter(ts: seq<int>, low: int, high: int)
    requires low <= high
    ensures After(After(ts, low), high) == After(ts, high)
  {
    if ts != [] {
      var n := |ts| - 1;
      AfterAfter(ts[..n], low, high);
      if ts[n] > low {
        assert (After(ts[..n], low) + [ts[n]])[..|After(ts[..n], low)|] == After(ts[..n], low);
      } else {
        assert After(ts, low) == After(ts[..n], low);
      }
    }
  }

  class CrashWindow {
    var data: array<int>
    var len: nat
    const window: nat
    ghost var history: seq<int>   // every crash ever recorded

    /** The slice is the whole history filtered to the window of its last crash. */
    ghost predicate Valid()
      reads this, data
    {
      && len <= data.Length
      && window > 0
      && Contents() == Kept(history, window)
    }

    function Contents(): (s: seq<int>)
      requires len <= data.Length
      reads this, data
    {
      data[..len]
    }

    constructor (window: nat)
      requires window > 0
      ensures Valid() && history == [] && this.window == window
      ensures fresh(data)
    {
      this.window := window;
      data := new int[0];
      len := 0;
      history := [];
    }

    /** `kept := crashTimestamps[:0]` and the loop that appends to it: the survivors
        move down within the same backing array. */
    method Compact(cutoff: int)
      requires len <= data.Length
      modifies this`len, data
      ensures len <= data.Length
      ensures Contents() == After(old(Contents()), cutoff)
    {
      ghost var was := Contents();
      var kept := 0;
      var i := 0;
      while i < len
        invariant kept <= i <= len <= data.Length
        invariant len == old(len) && |was| == len
        invariant data[..kept] == After(was[..i], cutoff)
        invariant data[i..len] == was[i..]
      {
        assert data[i] == data[i..len][0];
        assert data[i] == was[i];
        assert was[..i + 1][..i] == was[..i];
        AfterSnoc(was[..i], was[i], cutoff);
        assert was[..i] + [was[i]] == was[..i + 1];
        assert data[i + 1..len] == data[i..len][1..];
        if data[i] > cutoff {
          data[kept] := data[i];
          kept := kept + 1;
        }
        i := i + 1;
      }
      assert was[..i] == was;
      len := kept;
    }

    /** append: in place while the backing array has room, into a larger one otherwise. */
    method Append(t: int)
      requires len <= data.Length
      modifies this`len, this`data, data
      ensures len <= data.Length
      ensures Contents() == old(Contents()) + [t]
      ensures data == old(data) || fresh(data)
    {
      if len == data.Length {
        var grown := new int[2 * len + 1];
        forall k | 0 <= k < len { grown[k] := data[k]; }
        assert grown[..len] == data[..len];
        data := grown;
      }
      data[len] := t;
      len := len + 1;
    }

    /** recordCrashAndCheckLimit: the verdict is the one the full history would give,
        so pruning never changes a decision. */
    method RecordCrashAndCheckLimit(now: int, limit: nat) returns (ok: bool)
      requires Valid()
      requires history != [] ==> history[|history| - 1] <= now
      modifies this`len, this`data, this`history, data
      ensures Valid()
      ensures history == old(history) + [now]
      ensures ok <==> |After(history, now - window)| <= limit
      ensures data == old(data) || fresh(data)
    {
      ghost var cutoff, before := now - window, history;
      Compact(now - window);
      SameAsHistory(before, window, now);
      Append(now);
      AfterSnoc(before, now, cutoff);
      history := history + [now];
      ok := len <= limit;
    }
  }

  function Kept(history: seq<int>, window: nat): seq<int> {
    if history == [] then [] else After(history, history[|history| - 1] - window)
  }

  lemma SameAsHistory(history: seq<int>, window: nat, now: int)
    requires history != [] ==> history[|history| - 1] <= now
    ensures After(Kept(history, window), now - window) == After(history, now - window)
  {
    if history != [] { AfterAfter(history, history[|history| - 1] - window, now - window); }
  }
}
