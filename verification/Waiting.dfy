/**
 Threads that wait for something (src/proc.rs:420-481, src/timer.rs:33-62, src/console.rs:56-101): join, sleep_ticks and
 blocking console reads, with the exits, ticks and bytes that end the wait.  Each check-then-sleep, each
 handler and each exit is one step, because it runs with interrupts off (Interrupts.RegionsAtomic).
 */
module Waiting {
  import opened Options
  import Console
  import ThreadStates

  /** What a thread went to sleep for.  The program keeps only the channel, `Chan`. */
  datatype Why = Exited(pid: nat) | Ticked(target: nat) | Input | Other(chan: nat)

  datatype Status = Ready | Running | Asleep(why: Why) | Zombie

  datatype Thread = Thread(pid: nat, status: Status)

  /** `pending` are the pids that were issued to a spawning thread and have no process yet; `inputChan` is the address
      of the input buffer. */
  datatype Kernel = Kernel(
    procs: seq<Option<Thread>>, current: Option<nat>, nextPid: nat, pending: set<nat>,
    ticks: nat, ring: Console.Queue, inputChan: nat)
  {
    predicate On(i: nat) { i < |procs| && procs[i].Some? }
    predicate Ok() { current.Some? ==> On(current.value) }

    function Set(i: nat, st: Status): Kernel
      requires On(i)
    {
      this.(procs := procs[i := Some(procs[i].value.(status := st))])
    }

    /** The running thread leaves the hart. */
    function Leave(st: Status): Kernel
      requires Ok() && current.Some?
    {
      Set(current.value, st).(current := None)
    }
  }

  function Chan(k: Kernel, w: Why): nat
  {
    match w
    case Exited(_) => ThreadStates.EXIT_CHAN
    case Ticked(_) => ThreadStates.TICK_CHAN
    case Input => k.inputChan
    case Other(c) => c
  }

  predicate SleepsOn(k: Kernel, i: nat, chan: nat)
  {
    k.On(i) && k.procs[i].value.status.Asleep? && Chan(k, k.procs[i].value.status.why) == chan
  }

  function Woken(k: Kernel, chan: nat): (k': Kernel)
    ensures k' == k.(procs := k'.procs) && |k'.procs| == |k.procs|
    ensures forall i :: 0 <= i < |k.procs| ==>
        k'.procs[i] == if SleepsOn(k, i, chan) then Some(k.procs[i].value.(status := Ready)) else k.procs[i]
  {
    k.(procs := seq(|k.procs|, i requires 0 <= i < |k.procs| =>
        if SleepsOn(k, i, chan) then Some(k.procs[i].value.(status := Ready)) else k.procs[i]))
  }

  /** Some thread has this pid and is not a zombie. */
  predicate Alive(k: Kernel, pid: nat)
  {
    exists i :: 0 <= i < |k.procs| && k.procs[i].Some? && k.procs[i].value.pid == pid &&
        !k.procs[i].value.status.Zombie?
  }

  /** A spawn takes two steps, between which anything else may happen: it takes a pid with interrupts on, and makes the
      process visible later. */
  datatype Step =
    | TakePid | Publish(pid: nat, slot: nat) | Dispatch(slot: nat) | Yield | Exit | Reap(slot: nat)
    | Join(pid: nat) | SleepTicks(target: nat) | Getchar
    | Sleep(chan: nat) | Wakeup(chan: nat)
    | Tick | Receive(b: Console.byte)

  predicate IsFirstFree(k: Kernel, i: nat)
  {
    && i <= |k.procs| && (i < |k.procs| ==> k.procs[i].None?)
    && forall j :: 0 <= j < i ==> k.procs[j].Some?
  }

  predicate Enabled(k: Kernel, s: Step)
  {
    match s
    case TakePid => true
    case Publish(pid, i) => pid in k.pending && IsFirstFree(k, i)
    case Dispatch(i) => k.current.None? && k.On(i) && k.procs[i].value.status.Ready?
    case Reap(i) => k.current.None? && k.On(i) && k.procs[i].value.status.Zombie?
    case Wakeup(_) => true
    case Tick => true
    case Receive(_) => true
    case _ => k.current.Some? && k.On(k.current.value)
  }

  function Do(k: Kernel, s: Step): Kernel
    requires Enabled(k, s)
  {
    match s
    case TakePid => k.(pending := k.pending + {k.nextPid}, nextPid := k.nextPid + 1)
    case Publish(pid, i) =>
      var t := Some(Thread(pid, Ready));
      k.(procs := if i < |k.procs| then k.procs[i := t] else k.procs + [t], pending := k.pending - {pid})
    case Dispatch(i) => k.Set(i, Running).(current := Some(i))
    case Yield => k.Leave(Ready)
    case Exit => Woken(k, ThreadStates.EXIT_CHAN).Leave(Zombie)
    case Reap(i) => k.(procs := k.procs[i := None])
    case Join(pid) => if Alive(k, pid) then k.Leave(Asleep(Exited(pid))) else k
    case SleepTicks(target) => if k.ticks < target then k.Leave(Asleep(Ticked(target))) else k
    case Getchar => if k.ring == [] then k.Leave(Asleep(Input)) else k.(ring := k.ring[1..])
    case Sleep(c) => k.Leave(Asleep(Other(c)))
    case Wakeup(c) => Woken(k, c)
    case Tick => Woken(k.(ticks := k.ticks + 1), ThreadStates.TICK_CHAN)
    case Receive(b) => Woken(k.(ring := Console.Accept(k.ring, b)), k.inputChan)
  }

  // --- the invariant ---

  predicate StillWaits(k: Kernel, w: Why)
  {
    match w
    case Exited(pid) => Alive(k, pid)
    case Ticked(target) => k.ticks < target
    case Input => k.ring == []
    case Other(_) => true
  }

  /** Whoever sleeps has a reason to: the condition it waits for is still false. */
  predicate SleepersOk(k: Kernel)
  {
    forall i :: 0 <= i < |k.procs| && k.On(i) && k.procs[i].value.status.Asleep? ==>
        StillWaits(k, k.procs[i].value.status.why)
  }

  /** The running thread is exactly `current`. */
  predicate RunningOk(k: Kernel)
  {
    && k.Ok()
    && forall i :: 0 <= i < |k.procs| && k.On(i) ==> (k.procs[i].value.status.Running? <==> k.current == Some(i))
  }

  /** No two threads have the same pid, and no pending pid is a thread's. */
  predicate PidsOk(k: Kernel)
  {
    && (forall pid :: pid in k.pending ==> pid < k.nextPid)
    && (forall i :: 0 <= i < |k.procs| && k.On(i) ==> k.procs[i].value.pid !in k.pending)
    && (forall i :: 0 <= i < |k.procs| && k.On(i) ==> k.procs[i].value.pid < k.nextPid)
    && (forall i, j :: 0 <= i < j < |k.procs| && k.On(i) && k.On(j) ==> k.procs[i].value.pid != k.procs[j].value.pid)
  }

  predicate Inv(k: Kernel) { SleepersOk(k) && RunningOk(k) && PidsOk(k) }

  lemma StepRunning(k: Kernel, s: Step)
    requires RunningOk(k) && Enabled(k, s)
    ensures RunningOk(Do(k, s))
  {
    hide Alive;
  }

  lemma StepPids(k: Kernel, s: Step)
    requires PidsOk(k) && Enabled(k, s)
    ensures PidsOk(Do(k, s)) && Do(k, s).nextPid >= k.nextPid
  {
    hide Alive;
  }

  /** A live pid stays alive through every step but the exit of its own thread. */
  lemma AliveKept(k: Kernel, s: Step, pid: nat)
    requires RunningOk(k) && Enabled(k, s) && Alive(k, pid)
    requires s.Exit? ==> k.procs[k.current.value].value.pid != pid
    ensures Alive(Do(k, s), pid)
  {
    var k' := Do(k, s);
    var i :| 0 <= i < |k.procs| && k.procs[i].Some? && k.procs[i].value.pid == pid && !k.procs[i].value.status.Zombie?;
    assert k'.procs[i].Some? && k'.procs[i].value.pid == pid && !k'.procs[i].value.status.Zombie?;
  }

  lemma StepSleepers(k: Kernel, s: Step)
    requires Inv(k) && Enabled(k, s)
    ensures SleepersOk(Do(k, s))
  {
    var k' := Do(k, s);
    forall i | 0 <= i < |k'.procs| && k'.On(i) && k'.procs[i].value.status.Asleep?
      ensures StillWaits(k', k'.procs[i].value.status.why)
    {
      var w := k'.procs[i].value.status.why;
      if k.On(i) && k.procs[i].value.status == Asleep(w) {
        assert StillWaits(k, w);
        if w.Exited? && !s.Exit? {
          AliveKept(k, s, w.pid);
        }
      } else if w.Exited? {
        AliveKept(k, s, w.pid);
      }
    }
  }

  lemma StepInv(k: Kernel, s: Step)
    requires Inv(k) && Enabled(k, s)
    ensures Inv(Do(k, s))
  {
    StepRunning(k, s);
    StepPids(k, s);
    hide Do, SleepersOk, RunningOk, PidsOk;
    StepSleepers(k, s);
  }

  // --- every run ---

  predicate Runs(k: Kernel, steps: seq<Step>)
    decreases |steps|
  {
    steps == [] || (Enabled(k, steps[0]) && Runs(Do(k, steps[0]), steps[1..]))
  }

  function After(k: Kernel, steps: seq<Step>): Kernel
    requires Runs(k, steps)
    decreases |steps|
  {
    if steps == [] then k else After(Do(k, steps[0]), steps[1..])
  }

  lemma {:induction false} RunInv(k: Kernel, steps: seq<Step>)
    requires Inv(k) && Runs(k, steps)
    ensures Inv(After(k, steps))
    decreases |steps|
  {
    if steps != [] {
      StepInv(k, steps[0]);
      RunInv(Do(k, steps[0]), steps[1..]);
    }
  }

  lemma {:induction false} OneMore(k: Kernel, steps: seq<Step>, s: Step)
    requires Runs(k, steps) && Enabled(After(k, steps), s)
    ensures Runs(k, steps + [s]) && After(k, steps + [s]) == Do(After(k, steps), s)
    decreases |steps|
  {
    hide Enabled, Do;
    if steps == [] {
      assert ([] + [s])[1..] == [] && Runs(Do(k, s), []);
    } else {
      OneMore(Do(k, steps[0]), steps[1..], s);
      assert (steps + [s])[1..] == steps[1..] + [s];
    }
  }

  function Boot(inputChan: nat): Kernel { Kernel([], None, 1, {}, 0, [], inputChan) }

  lemma BootInv(inputChan: nat, steps: seq<Step>)
    requires Runs(Boot(inputChan), steps)
    ensures Inv(After(Boot(inputChan), steps))
  {
    RunInv(Boot(inputChan), steps);
  }

  /** At every step boundary of every run: a thread asleep in join(p) has p alive, one asleep in sleep_ticks has its
      target ahead, one asleep for input has an empty ring; and the one Running thread, if any, is `current`. */
  lemma SleepingMeansFalse(inputChan: nat, steps: seq<Step>)
    requires Runs(Boot(inputChan), steps)
    ensures
      var k := After(Boot(inputChan), steps);
      && (forall i :: 0 <= i < |k.procs| && k.On(i) && k.procs[i].value.status.Asleep? ==>
            StillWaits(k, k.procs[i].value.status.why))
      && (forall i :: 0 <= i < |k.procs| && k.On(i) ==> (k.procs[i].value.status.Running? <==> k.current == Some(i)))
  {
    RunInv(Boot(inputChan), steps);
  }

  /** A zombie becomes nothing but an empty slot. */
  lemma ZombieEnds(k: Kernel, s: Step, i: nat)
    requires Inv(k) && Enabled(k, s) && k.On(i) && k.procs[i].value.status.Zombie?
    ensures i < |Do(k, s).procs| && Do(k, s).procs[i] == if s == Reap(i) then None else k.procs[i]
  {
    hide Alive;
  }

  // --- pids that are dead for good ---

  /** Some step of the run makes a thread with this pid visible. */
  predicate Publishes(steps: seq<Step>, pid: nat)
  {
    exists n :: 0 <= n < |steps| && steps[n].Publish? && steps[n].pid == pid
  }

  /** The pid is alive at some step boundary of the run. */
  predicate EverAlive(k: Kernel, steps: seq<Step>, pid: nat)
    requires Runs(k, steps)
    decreases |steps|
  {
    Alive(k, pid) || (steps != [] && EverAlive(Do(k, steps[0]), steps[1..], pid))
  }

  /** Only being published makes a pid alive. */
  lemma DeadStays(k: Kernel, s: Step, pid: nat)
    requires Inv(k) && Enabled(k, s) && !Alive(k, pid)
    ensures Alive(Do(k, s), pid) <==> s.Publish? && s.pid == pid
  {
    var k' := Do(k, s);
    if s.Publish? && s.pid == pid {
      assert k'.procs[s.slot] == Some(Thread(pid, Ready));
    } else if i :|
      && 0 <= i < |k'.procs| && k'.procs[i].Some?
      && k'.procs[i].value.pid == pid && !k'.procs[i].value.status.Zombie? {
      assert i < |k.procs| && k.procs[i].Some? && k.procs[i].value.pid == pid && k.procs[i].value.status.Zombie?;
      ZombieEnds(k, s, i);
    }
  }

  /** On any run, from any state: a pid that is not alive stays so if and only if no step of the run publishes it. */
  lemma {:induction false} DeadUntilPublished(k: Kernel, steps: seq<Step>, pid: nat)
    requires Inv(k) && Runs(k, steps) && !Alive(k, pid)
    ensures EverAlive(k, steps, pid) <==> Publishes(steps, pid)
    decreases |steps|
  {
    hide Alive, Do, Inv, Enabled;
    if steps != [] {
      var k' := Do(k, steps[0]);
      StepInv(k, steps[0]);
      DeadStays(k, steps[0], pid);
      assert forall n :: 0 < n < |steps| ==> steps[n] == steps[1..][n - 1];
      if Alive(k', pid) {
        assert EverAlive(k', steps[1..], pid);
      } else {
        DeadUntilPublished(k', steps[1..], pid);
        if Publishes(steps[1..], pid) {
          var n :| 0 <= n < |steps[1..]| && steps[1..][n].Publish? && steps[1..][n].pid == pid;
          assert steps[n + 1] == steps[1..][n];
        }
      }
    }
  }

  /** Issued, with no live process, and in no spawning thread's hands: what a caller of join can rely on. */
  predicate Gone(k: Kernel, pid: nat)
  {
    pid < k.nextPid && pid !in k.pending && !Alive(k, pid)
  }

  lemma GoneStays(k: Kernel, s: Step, pid: nat)
    requires Inv(k) && Enabled(k, s) && Gone(k, pid)
    ensures Gone(Do(k, s), pid)
  {
    DeadStays(k, s, pid);
    hide Alive;
  }

  lemma {:induction false} GoneRun(k: Kernel, steps: seq<Step>, pid: nat)
    requires Inv(k) && Runs(k, steps) && Gone(k, pid)
    ensures Gone(After(k, steps), pid)
    decreases |steps|
  {
    hide Alive, Do, Inv, Enabled, Gone;
    if steps != [] {
      StepInv(k, steps[0]);
      GoneStays(k, steps[0], pid);
      GoneRun(Do(k, steps[0]), steps[1..], pid);
    }
  }

  lemma FreeSlot(k: Kernel) returns (i: nat)
    ensures IsFirstFree(k, i)
  {
    i := 0;
    while i < |k.procs| && k.procs[i].Some?
      invariant i <= |k.procs| && forall j :: 0 <= j < i ==> k.procs[j].Some?
    {
      i := i + 1;
    }
  }

  /** A pid that is not alive and not dead for good can come alive: it is published, once it is issued. */
  lemma {:induction false} Comes(k: Kernel, pid: nat) returns (steps: seq<Step>)
    requires !Alive(k, pid) && (pid in k.pending || pid >= k.nextPid)
    ensures Runs(k, steps) && Alive(After(k, steps), pid)
    decreases pid - k.nextPid
  {
    if pid in k.pending {
      var i := FreeSlot(k);
      var s := Publish(pid, i);
      assert Do(k, s).procs[i] == Some(Thread(pid, Ready));
      Next(k, [], k, s, Do(k, s), [s]);
      return [s];
    } else {
      var k' := Do(k, TakePid);
      assert k'.procs == k.procs;
      assert !Alive(k', pid);
      var rest := Comes(k', pid);
      steps := [TakePid] + rest;
      assert steps[1..] == rest;
    }
  }

  /** On some run from here the pid is alive at the end. */
  ghost predicate CanLive(k: Kernel, pid: nat)
  {
    exists steps :: Runs(k, steps) && Alive(After(k, steps), pid)
  }

  /** A pid that is not alive is never alive again, on any run, if and only if it was issued and no thread is about to
      publish it: exactly then what join(p) reported stays true. */
  lemma NeverAgain(k: Kernel, pid: nat)
    requires Inv(k) && !Alive(k, pid)
    ensures !CanLive(k, pid) <==> pid < k.nextPid && pid !in k.pending
  {
    hide Alive, Inv, Do, Enabled;
    if pid < k.nextPid && pid !in k.pending {
      forall steps | Runs(k, steps) ensures !Alive(After(k, steps), pid) {
        GoneRun(k, steps, pid);
      }
    } else {
      var steps := Comes(k, pid);
      assert Runs(k, steps) && Alive(After(k, steps), pid);
    }
  }

  /** Thread 1 takes pid 3 in a spawn and is preempted; thread 2 joins 3 and returns at once; then 3 comes alive. */
  lemma JoinTooEarly(inputChan: nat)
    ensures
      var before := [TakePid, Publish(1, 0), TakePid, Publish(2, 1), Dispatch(0), TakePid, Yield, Dispatch(1)];
      var after := [Yield, Dispatch(0), Publish(3, 2)];
      && Runs(Boot(inputChan), before)
      && var k := After(Boot(inputChan), before);
         && k.current == Some(1) && Enabled(k, Join(3)) && Do(k, Join(3)) == k
         && Runs(k, after) && Alive(After(k, after), 3)
  {
    hide Runs, After, Alive, Enabled, Do;
    var k4 := Boot(inputChan).(procs := [Some(Thread(1, Ready)), Some(Thread(2, Ready))], nextPid := 3);
    var k7 := k4.(nextPid := 4, pending := {3});
    var k8 := k7.(procs := [Some(Thread(1, Ready)), Some(Thread(2, Running))], current := Some(1));
    TwoThreads(inputChan, k4);
    Preempted(k4, k7, k8);
    TooEarly(k7, k8);
    var a, b := [TakePid, Publish(1, 0), TakePid, Publish(2, 1)], [Dispatch(0), TakePid, Yield, Dispatch(1)];
    Joined(Boot(inputChan), a, b);
    assert a + b == [TakePid, Publish(1, 0), TakePid, Publish(2, 1), Dispatch(0), TakePid, Yield, Dispatch(1)];
  }

  lemma TwoThreads(inputChan: nat, k4: Kernel)
    requires k4 == Boot(inputChan).(procs := [Some(Thread(1, Ready)), Some(Thread(2, Ready))], nextPid := 3)
    ensures Runs(Boot(inputChan), [TakePid, Publish(1, 0), TakePid, Publish(2, 1)])
    ensures After(Boot(inputChan), [TakePid, Publish(1, 0), TakePid, Publish(2, 1)]) == k4
  {
    hide Alive;
    var k0 := Boot(inputChan);
    var k2 := k0.(procs := [Some(Thread(1, Ready))], nextPid := 2);
    Next(k0, [], k0, TakePid, k0.(nextPid := 2, pending := {1}), [TakePid]);
    Next(k0, [TakePid], k0.(nextPid := 2, pending := {1}), Publish(1, 0), k2, [TakePid, Publish(1, 0)]);
    Next(k0, [TakePid, Publish(1, 0)], k2, TakePid, k2.(nextPid := 3, pending := {2}),
         [TakePid, Publish(1, 0), TakePid]);
    Next(k0, [TakePid, Publish(1, 0), TakePid], k2.(nextPid := 3, pending := {2}), Publish(2, 1), k4,
         [TakePid, Publish(1, 0), TakePid, Publish(2, 1)]);
  }

  lemma Preempted(k4: Kernel, k7: Kernel, k8: Kernel)
    requires k4.procs == [Some(Thread(1, Ready)), Some(Thread(2, Ready))] && k4.current.None? && k4.pending == {}
    requires k4.nextPid == 3 && k7 == k4.(nextPid := 4, pending := {3})
    requires k8 == k7.(procs := [Some(Thread(1, Ready)), Some(Thread(2, Running))], current := Some(1))
    ensures Runs(k4, [Dispatch(0), TakePid, Yield, Dispatch(1)])
    ensures After(k4, [Dispatch(0), TakePid, Yield, Dispatch(1)]) == k8
  {
    hide Runs, After, Alive;
    var k5 := k4.(procs := [Some(Thread(1, Running)), Some(Thread(2, Ready))], current := Some(0));
    var k6 := k5.(nextPid := 4, pending := {3});
    Nothing(k4);
    Next(k4, [], k4, Dispatch(0), k5, [Dispatch(0)]);
    Next(k4, [Dispatch(0)], k5, TakePid, k6, [Dispatch(0), TakePid]);
    Next(k4, [Dispatch(0), TakePid], k6, Yield, k7, [Dispatch(0), TakePid, Yield]);
    Next(k4, [Dispatch(0), TakePid, Yield], k7, Dispatch(1), k8, [Dispatch(0), TakePid, Yield, Dispatch(1)]);
  }

  lemma TooEarly(k7: Kernel, k8: Kernel)
    requires k7.procs == [Some(Thread(1, Ready)), Some(Thread(2, Ready))] && k7.current.None? && k7.pending == {3}
    requires k8 == k7.(procs := [Some(Thread(1, Ready)), Some(Thread(2, Running))], current := Some(1))
    ensures Enabled(k8, Join(3)) && Do(k8, Join(3)) == k8
    ensures Runs(k8, [Yield, Dispatch(0), Publish(3, 2)]) && Alive(After(k8, [Yield, Dispatch(0), Publish(3, 2)]), 3)
  {
    hide Runs, After, Alive;
    var k6 := k7.(procs := [Some(Thread(1, Running)), Some(Thread(2, Ready))], current := Some(0));
    var k' := k6.(procs := k6.procs + [Some(Thread(3, Ready))], pending := {});
    AliveAt(k', 2);
    NotAlive(k8, 3);
    Nothing(k8);
    Next(k8, [], k8, Yield, k7, [Yield]);
    Next(k8, [Yield], k7, Dispatch(0), k6, [Yield, Dispatch(0)]);
    Next(k8, [Yield, Dispatch(0)], k6, Publish(3, 2), k', [Yield, Dispatch(0), Publish(3, 2)]);
  }

  lemma AliveAt(k: Kernel, i: nat)
    requires k.On(i) && !k.procs[i].value.status.Zombie?
    ensures Alive(k, k.procs[i].value.pid)
  {
  }

  lemma NotAlive(k: Kernel, pid: nat)
    requires forall i :: 0 <= i < |k.procs| && k.procs[i].Some? ==> k.procs[i].value.pid != pid
    ensures !Alive(k, pid)
  {
  }

  lemma Nothing(k: Kernel)
    ensures Runs(k, []) && After(k, []) == k
  {
  }

  lemma {:induction false} Split(k: Kernel, a: seq<Step>, b: seq<Step>)
    requires Runs(k, a + b)
    ensures Runs(k, a) && Runs(After(k, a), b) && After(k, a + b) == After(After(k, a), b)
    decreases |a|
  {
    hide Enabled, Do;
    if a == [] {
      assert a + b == b;
    } else {
      assert (a + b)[1..] == a[1..] + b;
      Split(Do(k, a[0]), a[1..], b);
    }
  }

  lemma {:induction false} Joined(k: Kernel, a: seq<Step>, b: seq<Step>)
    requires Runs(k, a) && Runs(After(k, a), b)
    ensures Runs(k, a + b) && After(k, a + b) == After(After(k, a), b)
    decreases |a|
  {
    hide Enabled, Do;
    if a == [] {
      assert a + b == b;
    } else {
      Joined(Do(k, a[0]), a[1..], b);
      assert (a + b)[1..] == a[1..] + b;
    }
  }

  lemma Next(k: Kernel, steps: seq<Step>, now: Kernel, s: Step, next: Kernel, more: seq<Step>)
    requires Runs(k, steps) && After(k, steps) == now && Enabled(now, s) && Do(now, s) == next && more == steps + [s]
    ensures Runs(k, more) && After(k, more) == next
  {
    OneMore(k, steps, s);
  }
}
