/**
 One counting semaphore (src/sync.rs:15-58) under every interleaving of any number of threads that call
 `wait` and `signal` in any order.  Steps are the regions under push_off.
 */
module Semaphores {

  datatype Pc = Idle | Waiting | Asleep | Raised

  datatype State = State(count: nat, threads: seq<Pc>)

  datatype Call = Wait | Signal

  function Woken(ts: seq<Pc>): (r: seq<Pc>)
    ensures |r| == |ts| && forall i :: 0 <= i < |ts| ==> r[i] == if ts[i].Asleep? then Waiting else ts[i]
  {
    if ts == [] then [] else [if ts[0].Asleep? then Waiting else ts[0]] + Woken(ts[1..])
  }

  predicate Enabled(s: State, i: nat) { i < |s.threads| && !s.threads[i].Asleep? }

  /** `wait` takes the count or goes to sleep in one step; `signal` raises it and wakes in two. */
  function Step(s: State, i: nat, call: Call): State
    requires Enabled(s, i)
  {
    match s.threads[i]
    case Idle =>
      if call.Wait? then s.(threads := s.threads[i := Waiting])
      else s.(count := s.count + 1, threads := s.threads[i := Raised])
    case Waiting =>
      if s.count > 0 then s.(count := s.count - 1, threads := s.threads[i := Idle])
      else s.(threads := s.threads[i := Pc.Asleep])
    case Raised => s.(threads := Woken(s.threads)[i := Idle])
  }

  predicate SomeAsleep(s: State) { exists i :: 0 <= i < |s.threads| && s.threads[i].Asleep? }
  predicate SomeRaised(s: State) { exists i :: 0 <= i < |s.threads| && s.threads[i].Raised? }

  /** A positive count with a sleeper means that a wakeup is on its way. */
  predicate Inv(s: State) { s.count > 0 && SomeAsleep(s) ==> SomeRaised(s) }

  lemma StepInv(s: State, i: nat, call: Call)
    requires Inv(s) && Enabled(s, i)
    ensures Inv(Step(s, i, call))
  {
    var s' := Step(s, i, call);
    if s'.count > 0 && SomeAsleep(s') {
      var j :| 0 <= j < |s'.threads| && s'.threads[j].Asleep?;
      if s.threads[i].Idle? && call.Signal? {
        assert s'.threads[i].Raised?;
      } else {
        assert s.threads[j].Asleep?;
        var k :| 0 <= k < |s.threads| && s.threads[k].Raised?;
        assert s'.threads[k].Raised?;
      }
    }
  }

  type Schedule = seq<(nat, Call)>

  predicate Runs(s: State, sched: Schedule)
    decreases |sched|
  {
    sched == [] || (Enabled(s, sched[0].0) && Runs(Step(s, sched[0].0, sched[0].1), sched[1..]))
  }

  function After(s: State, sched: Schedule): State
    requires Runs(s, sched)
    decreases |sched|
  {
    if sched == [] then s else After(Step(s, sched[0].0, sched[0].1), sched[1..])
  }

  lemma {:induction false} RunInv(s: State, sched: Schedule)
    requires Inv(s) && Runs(s, sched)
    ensures Inv(After(s, sched))
    decreases |sched|
  {
    if sched != [] {
      StepInv(s, sched[0].0, sched[0].1);
      RunInv(Step(s, sched[0].0, sched[0].1), sched[1..]);
    }
  }

  // --- calls, counted off the schedule ---

  /** How many calls of `signal` have begun. */
  function Signals(s: State, sched: Schedule): nat
    requires Runs(s, sched)
    decreases |sched|
  {
    if sched == [] then 0 else
    var (i, call) := sched[0];
    (if s.threads[i].Idle? && call.Signal? then 1 else 0) + Signals(Step(s, i, call), sched[1..])
  }

  /** How many calls of `wait` have returned. */
  function Returns(s: State, sched: Schedule): nat
    requires Runs(s, sched)
    decreases |sched|
  {
    if sched == [] then 0 else
    var (i, call) := sched[0];
    var s' := Step(s, i, call);
    (if s.threads[i].Waiting? && s'.threads[i].Idle? then 1 else 0) + Returns(s', sched[1..])
  }

  lemma {:induction false} Conserved(s: State, sched: Schedule)
    requires Runs(s, sched)
    ensures After(s, sched).count + Returns(s, sched) == s.count + Signals(s, sched)
    decreases |sched|
  {
    if sched != [] {
      Conserved(Step(s, sched[0].0, sched[0].1), sched[1..]);
    }
  }

  predicate Fresh(initial: nat, s: State)
  {
    s.count == initial && forall i :: 0 <= i < |s.threads| ==> s.threads[i].Idle?
  }

  /** After every schedule: as many waits have returned as there were units and signals, less the count; and a sleeper
      with a positive count has a wakeup coming, so once every signal has finished a thread is asleep only if every unit
      was taken. */
  lemma NoLostWakeup(initial: nat, s: State, sched: Schedule)
    requires Fresh(initial, s) && Runs(s, sched)
    ensures
      var s' := After(s, sched);
      && s'.count + Returns(s, sched) == initial + Signals(s, sched)
      && (s'.count > 0 && SomeAsleep(s') ==> SomeRaised(s'))
      && (SomeAsleep(s') && !SomeRaised(s') ==> Returns(s, sched) == initial + Signals(s, sched))
  {
    RunInv(s, sched);
    Conserved(s, sched);
  }
}
