/** watchChild: one exit code from the reaper, seen by any number of observers. */
module ChildWatch {
  import opened Types

  /** How far the watching goroutine has got. */
  datatype Progress = Receiving | Received(code: int) | Recorded | Finished

  /** `sent` is what the reaper put on the child's channel, `code` and `done` the watcher's fields, and
      `seen` what each observer read after its receive from `done`. */
  datatype State = State(sent: Option<int>, at: Progress, code: int, done: bool, seen: map<nat, int>)

  const Start := State(None, Receiving, 0, false, map[])

  datatype Op =
    | ChildExits(code: int)     // the reaper's one send
    | Receives | Records | Closes
    | Observes(who: nat)        // <-cw.done yields, then cw.code is read

  predicate Enabled(s: State, op: Op) {
    match op
    case ChildExits(_) => s.sent.None?
    case Receives => s.at.Receiving? && s.sent.Some?
    case Records => s.at.Received?
    case Closes => s.at.Recorded?
    case Observes(_) => s.done
  }

  function Apply(s: State, op: Op): State
    requires Enabled(s, op)
  {
    match op
    case ChildExits(code) => s.(sent := Some(code))
    case Receives => s.(at := Received(s.sent.value))
    case Records => s.(code := s.at.code, at := Recorded)
    case Closes => s.(done := true, at := Finished)
    case Observes(who) => s.(seen := s.seen[who := s.code])
  }

  ghost predicate Run(ops: seq<Op>, ss: seq<State>) {
    && |ss| == |ops| + 1 && ss[0] == Start
    && forall i :: 0 <= i < |ops| ==> Step(ops, ss, i)
  }

  ghost predicate Step(ops: seq<Op>, ss: seq<State>, i: nat)
    requires i < |ops| && |ss| == |ops| + 1
  {
    Enabled(ss[i], ops[i]) && ss[i + 1] == Apply(ss[i], ops[i])
  }

  /** Whoever observes the exit, and however often, reads the code the child exited with; an observation is
      possible exactly once the watcher is through, and then always. */
  lemma {:induction false} EveryObserverSeesTheExit(ops: seq<Op>, ss: seq<State>, n: nat)
    requires Run(ops, ss) && n <= |ops|
    ensures forall who <- ss[n].seen :: ss[n].sent == Some(ss[n].seen[who])
    ensures ss[n].done <==> ss[n].at.Finished?
    ensures ss[n].at.Received? ==> ss[n].sent == Some(ss[n].at.code)
    ensures ss[n].at.Recorded? || ss[n].at.Finished? ==> ss[n].sent == Some(ss[n].code)
  {
    if n > 0 {
      assert Step(ops, ss, n - 1);
      EveryObserverSeesTheExit(ops, ss, n - 1);
    }
  }

  lemma {:induction false} ExitStaysObservable(ops: seq<Op>, ss: seq<State>, m: nat, n: nat, who: nat)
    requires Run(ops, ss) && m <= n <= |ops| && ss[m].done
    ensures Enabled(ss[n], Observes(who)) && ss[n].code == ss[m].code
    decreases n
  {
    if m < n {
      assert Step(ops, ss, n - 1);
      ExitStaysObservable(ops, ss, m, n - 1, who);
      EveryObserverSeesTheExit(ops, ss, n - 1);
    }
  }
}
