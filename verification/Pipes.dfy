/**
 A channel inside the running kernel (src/sync.rs on src/proc.rs): its semaphores sleep and wake through the process
 table, and every other event of the system may come in between.  A thread of the machine in Channels is a pid, and it
 is asleep there exactly when its process sleeps on the address of the semaphore.
 */
module Pipes {
  import opened Options
  import opened ThreadStates
  import opened Processes
  import opened Channels
  import opened Events
  import Mirroring
  import System
  import Waiting

  /** The addresses of the two semaphores, on which nobody else sleeps. */
  datatype Addresses = Addresses(empty: nat, full: nat)
  {
    predicate Own(inputChan: nat)
    {
      empty != full && empty !in {EXIT_CHAN, TICK_CHAN, inputChan} && full !in {EXIT_CHAN, TICK_CHAN, inputChan}
    }
    predicate Has(chan: nat) { chan == empty || chan == full }
  }

  /** Where the thread in slot `i` is in the channel agrees with the state of its process: asleep on the semaphore it
      found at zero, ready to go on, or, outside of send and recv, asleep on neither. */
  predicate SlotTied<T>(k: Waiting.Kernel, ts: seq<Pc<T>>, at: Addresses, i: nat)
    requires k.On(i)
  {
    && k.procs[i].value.pid < |ts|
    && match ts[k.procs[i].value.pid]
       case Idle => !Waiting.SleepsOn(k, i, at.empty) && !Waiting.SleepsOn(k, i, at.full)
       case SendAsleep(_) => Waiting.SleepsOn(k, i, at.empty)
       case RecvAsleep => Waiting.SleepsOn(k, i, at.full)
       case _ => k.procs[i].value.status.Ready? || k.procs[i].value.status.Running?
  }

  /** Whoever is inside send or recv is alive, and a pid without a process is not. */
  predicate InsideAlive<T>(k: Waiting.Kernel, ts: seq<Pc<T>>)
  {
    && |ts| == k.nextPid
    && (forall pid :: pid in k.pending && pid < |ts| ==> ts[pid].Idle?)
    && (forall pid :: 0 <= pid < |ts| && !ts[pid].Idle? ==> Waiting.Alive(k, pid))
  }

  predicate Tied<T>(k: Waiting.Kernel, ts: seq<Pc<T>>, at: Addresses)
  {
    && at.Own(k.inputChan) && InsideAlive(k, ts)
    && forall i :: 0 <= i < |k.procs| && k.On(i) ==> SlotTied(k, ts, at, i)
  }

  function Pid(k: Waiting.Kernel): nat
    requires k.current.Some? && k.On(k.current.value)
  {
    k.procs[k.current.value].value.pid
  }

  /** The running thread is not inside send or recv. */
  predicate Outside<T>(k: Waiting.Kernel, ts: seq<Pc<T>>)
  {
    k.current.Some? && k.On(k.current.value) ==> Pid(k) < |ts| && ts[Pid(k)].Idle?
  }

  /** What may happen beside the channel: nobody else sleeps or wakes on its addresses, and a thread inside send or recv
      does nothing but be preempted. */
  predicate Beside<T>(k: Waiting.Kernel, ts: seq<Pc<T>>, at: Addresses, s: Waiting.Step)
  {
    match s
    case Sleep(c) => !at.Has(c) && Outside(k, ts)
    case Wakeup(c) => !at.Has(c)
    case Exit => Outside(k, ts)
    case Join(_) => Outside(k, ts)
    case SleepTicks(_) => Outside(k, ts)
    case Getchar => Outside(k, ts)
    case _ => true
  }

  function Grown<T>(ts: seq<Pc<T>>, s: Waiting.Step): seq<Pc<T>> { if s.TakePid? then ts + [Idle] else ts }

  // --- steps beside the channel ---

  lemma BesideAlive<T>(k: Waiting.Kernel, ts: seq<Pc<T>>, at: Addresses, s: Waiting.Step)
    requires Waiting.Inv(k) && Waiting.Enabled(k, s) && InsideAlive(k, ts) && Beside(k, ts, at, s)
    ensures InsideAlive(Waiting.Do(k, s), Grown(ts, s))
  {
    var k', ts' := Waiting.Do(k, s), Grown(ts, s);
    forall pid | 0 <= pid < |ts'| && !ts'[pid].Idle? ensures Waiting.Alive(k', pid) {
      assert ts'[pid] == ts[pid];
      Waiting.AliveKept(k, s, pid);
    }
    hide Waiting.Alive;
  }

  lemma BesideSlot<T>(k: Waiting.Kernel, ts: seq<Pc<T>>, at: Addresses, s: Waiting.Step, i: nat)
    requires Waiting.RunningOk(k) && Waiting.Enabled(k, s) && at.Own(k.inputChan) && Beside(k, ts, at, s)
    requires k.On(i) && SlotTied(k, ts, at, i) && Waiting.Do(k, s).On(i)
    ensures SlotTied(Waiting.Do(k, s), Grown(ts, s), at, i)
  {
    hide Waiting.Alive;
    assert Waiting.Do(k, s).procs[i].value.pid == k.procs[i].value.pid;
  }

  lemma BesideSlots<T>(k: Waiting.Kernel, ts: seq<Pc<T>>, at: Addresses, s: Waiting.Step)
    requires Waiting.Inv(k) && Waiting.Enabled(k, s) && Tied(k, ts, at) && Beside(k, ts, at, s)
    ensures
      var k', ts' := Waiting.Do(k, s), Grown(ts, s);
      forall i :: 0 <= i < |k'.procs| && k'.On(i) ==> SlotTied(k', ts', at, i)
  {
    hide Waiting.Alive;
    var k', ts' := Waiting.Do(k, s), Grown(ts, s);
    forall i | 0 <= i < |k'.procs| && k'.On(i) ensures SlotTied(k', ts', at, i) {
      if s.Publish? && s.slot == i {
        assert ts[s.pid].Idle?;
      } else {
        assert k.On(i);
        BesideSlot(k, ts, at, s, i);
      }
    }
  }

  lemma BesideTied<T>(k: Waiting.Kernel, ts: seq<Pc<T>>, at: Addresses, s: Waiting.Step)
    requires Waiting.Inv(k) && Waiting.Enabled(k, s) && Tied(k, ts, at) && Beside(k, ts, at, s)
    ensures Tied(Waiting.Do(k, s), Grown(ts, s), at)
  {
    BesideAlive(k, ts, at, s);
    BesideSlots(k, ts, at, s);
    hide SlotTied, InsideAlive, Waiting.Alive;
  }

  // --- steps of the running thread in the channel ---

  /** It goes on without sleeping or waking. */
  lemma MoveTied<T>(k: Waiting.Kernel, ts: seq<Pc<T>>, at: Addresses, pc: Pc<T>)
    requires Waiting.Inv(k) && Tied(k, ts, at) && k.current.Some? && Pid(k) < |ts| && !Asleep(pc)
    ensures Tied(k, ts[Pid(k) := pc], at)
  {
    var c, ts' := k.current.value, ts[Pid(k) := pc];
    Waiting.AliveAt(k, c);
    hide Waiting.Alive;
    forall i | 0 <= i < |k.procs| && k.On(i) ensures SlotTied(k, ts', at, i) {
      assert SlotTied(k, ts, at, i);
      assert i != c ==> k.procs[i].value.pid != Pid(k);
    }
  }

  /** It found the semaphore at zero. */
  lemma SleepTied<T>(k: Waiting.Kernel, ts: seq<Pc<T>>, at: Addresses, pc: Pc<T>)
    requires Waiting.Inv(k) && Tied(k, ts, at) && k.current.Some? && Pid(k) < |ts| && Asleep(pc)
    ensures
      var s := Waiting.Sleep(if pc.SendAsleep? then at.empty else at.full);
      Waiting.Enabled(k, s) && Tied(Waiting.Do(k, s), ts[Pid(k) := pc], at)
  {
    var c, ts' := k.current.value, ts[Pid(k) := pc];
    var s := Waiting.Sleep(if pc.SendAsleep? then at.empty else at.full);
    var k' := Waiting.Do(k, s);
    Waiting.AliveAt(k, c);
    forall pid | 0 <= pid < |ts'| && !ts'[pid].Idle? ensures Waiting.Alive(k', pid) {
      Waiting.AliveKept(k, s, pid);
    }
    hide Waiting.Alive;
    forall i | 0 <= i < |k'.procs| && k'.On(i) ensures SlotTied(k', ts', at, i) {
      assert SlotTied(k, ts, at, i);
      assert i != c ==> k.procs[i].value.pid != Pid(k);
    }
  }

  function Awake<T>(ts: seq<Pc<T>>, senders: bool): seq<Pc<T>>
  {
    if senders then WakeSenders(ts) else WakeReceivers(ts)
  }

  lemma WakeSlot<T>(k: Waiting.Kernel, ts: seq<Pc<T>>, at: Addresses, senders: bool, i: nat)
    requires at.empty != at.full && k.On(i) && SlotTied(k, ts, at, i)
    ensures
      var k' := Waiting.Woken(k, if senders then at.empty else at.full);
      k'.On(i) && SlotTied(k', Awake(ts, senders), at, i)
  {
    hide WakeSenders, WakeReceivers;
    var ts' := Awake(ts, senders);
    var pid := k.procs[i].value.pid;
    assert ts'[pid] == if senders then WokenSender(ts[pid]) else WokenReceiver(ts[pid]);
  }

  lemma WokenTied<T>(k: Waiting.Kernel, ts: seq<Pc<T>>, at: Addresses, senders: bool)
    requires Waiting.Inv(k) && Tied(k, ts, at)
    ensures Tied(Waiting.Woken(k, if senders then at.empty else at.full), Awake(ts, senders), at)
  {
    hide SlotTied, WakeSenders, WakeReceivers;
    var s := Waiting.Wakeup(if senders then at.empty else at.full);
    var k', ts' := Waiting.Do(k, s), Awake(ts, senders);
    forall pid | 0 <= pid < |ts'| && !ts'[pid].Idle? ensures Waiting.Alive(k', pid) {
      assert !ts[pid].Idle?;
      Waiting.AliveKept(k, s, pid);
    }
    hide Waiting.Alive;
    forall i | 0 <= i < |k'.procs| && k'.On(i) ensures SlotTied(k', ts', at, i) {
      assert k.On(i);
      WakeSlot(k, ts, at, senders, i);
    }
  }

  lemma SleepStep<T>(s: Channels.State<T>, i: nat)
    requires i < |s.threads|
    requires (s.threads[i].SendWait? && s.empty == 0) || (s.threads[i].RecvWait? && s.full == 0)
    ensures Step(s, i, Recv).threads ==
              s.threads[i := if s.threads[i].SendWait? then SendAsleep(s.threads[i].item) else RecvAsleep]
  {
  }

  lemma MoveStep<T>(s: Channels.State<T>, i: nat)
    requires Enabled(s, i) && !s.threads[i].Idle? && !s.threads[i].SendWake? && !s.threads[i].RecvWake?
    requires (s.threads[i].SendWait? ==> s.empty > 0) && (s.threads[i].RecvWait? ==> s.full > 0)
    ensures
      var ts := Step(s, i, Recv).threads;
      |ts| == |s.threads| && ts == s.threads[i := ts[i]] && !Asleep(ts[i])
  {
  }

  lemma WakeStep<T>(s: Channels.State<T>, i: nat)
    requires i < |s.threads| && (s.threads[i].SendWake? || s.threads[i].RecvWake?)
    ensures Step(s, i, Recv).threads == Awake(s.threads, s.threads[i].RecvWake?)[i := Idle]
  {
  }

  lemma WokenRunner(k: Waiting.Kernel, s: Waiting.Step)
    requires Waiting.Inv(k) && k.current.Some? && s.Wakeup?
    ensures Waiting.Do(k, s) == Waiting.Woken(k, s.chan) && Waiting.Do(k, s).current == k.current
    ensures k.On(k.current.value) && Waiting.Do(k, s).On(k.current.value) && Pid(Waiting.Do(k, s)) == Pid(k)
  {
  }

  /** It wakes everyone on the semaphore it raised, and is done. */
  lemma WakeTied<T>(k: Waiting.Kernel, ts: seq<Pc<T>>, at: Addresses, senders: bool)
    requires Waiting.Inv(k) && Tied(k, ts, at) && k.current.Some? && Pid(k) < |ts|
    ensures
      var s := Waiting.Wakeup(if senders then at.empty else at.full);
      Waiting.Enabled(k, s) && Tied(Waiting.Do(k, s), Awake(ts, senders)[Pid(k) := Idle], at)
  {
    hide Tied, Waiting.Inv, SlotTied, WakeSenders, WakeReceivers, Waiting.Alive;
    var s := Waiting.Wakeup(if senders then at.empty else at.full);
    WokenTied(k, ts, at, senders);
    Waiting.StepInv(k, s);
    WokenRunner(k, s);
    MoveTied(Waiting.Do(k, s), Awake(ts, senders), at, Idle);
  }

  // --- events beside the channel ---

  /** May this event come beside the channel, with `outside` for the running thread?  See Beside. */
  predicate Allows(at: Addresses, e: Event, outside: bool)
  {
    match e
    case TakePid => true
    case StartThread(_) => true
    case BeginImage(_, _) => true
    case BuildStep(_) => true
    case FinishImage(_, _) => true
    case WakeOn(c) => !at.Has(c)
    case SleepOn(c) => !at.Has(c) && outside
    case Yield => true
    case Tick => true
    case Receive(_) => true
    case Reap(_) => true
    case Dispatch => true
    case _ => outside
  }

  lemma EventTied<T>(k: Waiting.Kernel, ts: seq<Pc<T>>, at: Addresses, e: Event, procs: Table, nextPid: nat,
                     steps: seq<Waiting.Step>)
    requires Waiting.Inv(k) && Tied(k, ts, at) && Allows(at, e, Outside(k, ts))
    requires Takes(e, procs, nextPid, steps) && Waiting.Runs(k, steps)
    ensures Tied(Waiting.After(k, steps), if e.TakePid? || e.Fork? then ts + [Idle] else ts, at)
  {
    hide Tied, Waiting.Inv, Waiting.Enabled, Waiting.Do, FirstFree;
    if |steps| >= 1 {
      var k1 := Waiting.Do(k, steps[0]);
      BesideTied(k, ts, at, steps[0]);
      Waiting.StepInv(k, steps[0]);
      if |steps| == 2 {
        assert steps[1..] == [steps[1]] && steps[1..][1..] == [] && Waiting.Runs(k1, steps[1..]);
        BesideTied(k1, ts + [Idle], at, steps[1]);
        assert Waiting.After(k1, steps[1..]) == Waiting.Do(k1, steps[1]);
      } else {
        assert steps[1..] == [];
      }
    }
  }

  /** The running thread, in the table and in Waiting. */
  lemma RunnerIs<T>(sys: System.System, ts: seq<Pc<T>>, at: Addresses)
    requires sys.Valid() && Tied(sys.waits, ts, at)
    ensures sys.waits.current == sys.pt.current
    ensures sys.pt.current.Some? ==>
              var c := sys.pt.current.value;
              && c < |sys.pt.procs| && sys.pt.procs[c].Some? && sys.waits.On(c)
              && sys.pt.procs[c].value.pid == Pid(sys.waits) < |ts|
  {
    hide ProcTable.Valid, System.RoundsOk, Waiting.Runs, Waiting.After;
    System.CurrentIs(sys.pt);
    if sys.pt.current.Some? {
      assert Mirroring.SlotIs(sys.waits, sys.waits.procs[sys.pt.current.value], sys.pt.procs[sys.pt.current.value]);
      assert SlotTied(sys.waits, ts, at, sys.pt.current.value);
    }
  }

  lemma NewTied<T>(sys: System.System, ts: seq<Pc<T>>, at: Addresses)
    requires sys.Valid() && at.Own(sys.inputChan) && |ts| == sys.pt.nextPid
    requires forall pid :: 0 <= pid < |ts| ==> ts[pid].Idle?
    requires forall i :: 0 <= i < |sys.pt.procs| ==>
               !Sleeps(sys.pt.procs, i, at.empty) && !Sleeps(sys.pt.procs, i, at.full)
    ensures Tied(sys.waits, ts, at)
  {
    hide ProcTable.Valid, System.RoundsOk, Waiting.Runs, Waiting.After, Waiting.Alive;
    System.WaitsAre(sys);
    var k := sys.waits;
    forall i | 0 <= i < |k.procs| && k.On(i) ensures SlotTied(k, ts, at, i) {
      assert Mirroring.SlotIs(k, k.procs[i], sys.pt.procs[i]);
      assert !Sleeps(sys.pt.procs, i, at.empty) && !Sleeps(sys.pt.procs, i, at.full);
      assert k.procs[i].value.pid < k.nextPid;
    }
  }

  lemma AfterEvent<T>(sys: System.System, k: Waiting.Kernel, trace: seq<Waiting.Step>, ts: seq<Pc<T>>, at: Addresses,
                      e: Event, procs: Table, nextPid: nat)
    requires sys.Valid() && Waiting.Inv(k) && Tied(k, ts, at) && Allows(at, e, Outside(k, ts))
    requires Waiting.Runs(Waiting.Boot(sys.inputChan), trace) && k == Waiting.After(Waiting.Boot(sys.inputChan), trace)
    requires trace <= sys.trace && Takes(e, procs, nextPid, sys.trace[|trace|..])
    ensures Tied(sys.waits, if e.TakePid? || e.Fork? then ts + [Idle] else ts, at)
  {
    hide Tied, Waiting.Inv, System.System.Valid, Allows, Takes, Waiting.Runs, Waiting.After, Outside;
    System.WaitsAre(sys);
    var steps := sys.trace[|trace|..];
    assert sys.trace == trace + steps;
    Waiting.Split(Waiting.Boot(sys.inputChan), trace, steps);
    EventTied(k, ts, at, e, procs, nextPid, steps);
  }

  lemma WaitsMoved(sys: System.System, k: Waiting.Kernel, trace: seq<Waiting.Step>, s: Waiting.Step)
    requires sys.Valid() && sys.trace == trace + [s]
    requires Waiting.Runs(Waiting.Boot(sys.inputChan), trace) && k == Waiting.After(Waiting.Boot(sys.inputChan), trace)
    requires Waiting.Enabled(k, s)
    ensures sys.waits == Waiting.Do(k, s)
  {
    hide System.System.Valid, Waiting.Runs, Waiting.After, Waiting.Do, Waiting.Enabled;
    System.WaitsAre(sys);
    Waiting.OneMore(Waiting.Boot(sys.inputChan), trace, s);
  }

  lemma SleepLeaves(k: Waiting.Kernel, chan: nat)
    requires Waiting.Enabled(k, Waiting.Sleep(chan))
    ensures Waiting.Do(k, Waiting.Sleep(chan)).current.None?
  {
  }

  lemma RunnerNow(sys: System.System)
    requires sys.Valid()
    ensures sys.waits.current == sys.pt.current
  {
    hide ProcTable.Valid, System.RoundsOk, Waiting.Runs, Waiting.After;
  }

  // --- what the real table shows ---

  /** The process in slot `i` sleeps on this address. */
  predicate Sleeps(procs: Table, i: nat, chan: nat)
  {
    i < |procs| && procs[i].Some? && procs[i].value.state == Sleeping(chan)
  }

  /** A process that can run is about to wake the sleepers on a semaphore: the senders', or the receivers'. */
  predicate OnItsWay<T>(procs: Table, ts: seq<Pc<T>>, senders: bool)
  {
    exists j :: 0 <= j < |procs| && procs[j].Some? && (procs[j].value.state.Runnable? || procs[j].value.state.Running?)
             && procs[j].value.pid < |ts|
             && if senders then ts[procs[j].value.pid].RecvWake? else ts[procs[j].value.pid].SendWake?
  }

  lemma SleeperIs<T>(k: Waiting.Kernel, procs: Table, current: Option<nat>, ts: seq<Pc<T>>, at: Addresses, i: nat)
    requires Mirroring.Mirrors(k, procs, current) && Tied(k, ts, at) && i < |procs| && procs[i].Some?
    ensures procs[i].value.pid < |ts|
    ensures Sleeps(procs, i, at.empty) <==> ts[procs[i].value.pid].SendAsleep?
    ensures Sleeps(procs, i, at.full) <==> ts[procs[i].value.pid].RecvAsleep?
  {
    assert Mirroring.SlotIs(k, k.procs[i], procs[i]);
    assert k.On(i) && SlotTied(k, ts, at, i);
  }

  lemma InsideIs<T>(k: Waiting.Kernel, procs: Table, current: Option<nat>, ts: seq<Pc<T>>, at: Addresses, pid: nat)
    returns (j: nat)
    requires Mirroring.Mirrors(k, procs, current) && Tied(k, ts, at) && pid < |ts| && !ts[pid].Idle?
    ensures j < |procs| && procs[j].Some? && procs[j].value.pid == pid
    ensures !Asleep(ts[pid]) ==> procs[j].value.state.Runnable? || procs[j].value.state.Running?
  {
    j :| 0 <= j < |k.procs| && k.procs[j].Some? && k.procs[j].value.pid == pid && !k.procs[j].value.status.Zombie?;
    assert Mirroring.SlotIs(k, k.procs[j], procs[j]);
    assert k.On(j) && SlotTied(k, ts, at, j);
  }

  /** In the process table itself: a process asleep on a semaphore whose count is positive will be woken. */
  lemma RealWakeups<T>(k: Waiting.Kernel, procs: Table, current: Option<nat>, s: Channels.State<T>, at: Addresses,
                       i: nat)
    requires Mirroring.Mirrors(k, procs, current) && Tied(k, s.threads, at) && NoLostWakeup(s)
    ensures Sleeps(procs, i, at.empty) && s.empty > 0 ==> OnItsWay(procs, s.threads, true)
    ensures Sleeps(procs, i, at.full) && s.full > 0 ==> OnItsWay(procs, s.threads, false)
  {
    if Sleeps(procs, i, at.empty) && s.empty > 0 {
      SleeperIs(k, procs, current, s.threads, at, i);
      assert SomeSenderAsleep(s.threads);
      var p :| 0 <= p < |s.threads| && s.threads[p].RecvWake?;
      var j := InsideIs(k, procs, current, s.threads, at, p);
    }
    if Sleeps(procs, i, at.full) && s.full > 0 {
      SleeperIs(k, procs, current, s.threads, at, i);
      assert SomeReceiverAsleep(s.threads);
      var p :| 0 <= p < |s.threads| && s.threads[p].SendWake?;
      var j := InsideIs(k, procs, current, s.threads, at, p);
    }
  }

  /** Every process inside send or recv sleeps on one of the two semaphores. */
  predicate AllAsleep<T>(procs: Table, ts: seq<Pc<T>>, at: Addresses)
  {
    forall i :: 0 <= i < |procs| && procs[i].Some? && procs[i].value.pid < |ts| && !ts[procs[i].value.pid].Idle? ==>
      Sleeps(procs, i, at.empty) || Sleeps(procs, i, at.full)
  }

  /** With room for one item, the processes in a channel are never all asleep with senders and receivers among them. */
  lemma RealNotWedged<T>(k: Waiting.Kernel, procs: Table, current: Option<nat>, capacity: nat, s: Channels.State<T>,
                         at: Addresses, i: nat, j: nat)
    requires Mirroring.Mirrors(k, procs, current) && Tied(k, s.threads, at) && Inv(capacity, s) && capacity >= 1
    requires AllAsleep(procs, s.threads, at)
    ensures !(Sleeps(procs, i, at.empty) && Sleeps(procs, j, at.full))
  {
    if Sleeps(procs, i, at.empty) && Sleeps(procs, j, at.full) {
      SleeperIs(k, procs, current, s.threads, at, i);
      SleeperIs(k, procs, current, s.threads, at, j);
      forall p | 0 <= p < |s.threads| && !s.threads[p].Idle? ensures Asleep(s.threads[p]) {
        var m := InsideIs(k, procs, current, s.threads, at, p);
        SleeperIs(k, procs, current, s.threads, at, m);
      }
      assert Wedged(s);
      NotWedged(capacity, s);
    }
  }

  // --- the channel and the kernel together ---

  /** An event of the system beside the channel, a call of send or recv, or the next step of the one who is inside. */
  datatype Action<T> = Beside(event: Event) | Calls(call: Call<T>) | Turn

  class Pipe<T> {
    const sys: System.System
    const ch: Channel<T>
    const at: Addresses

    ghost predicate Valid()
      reads this, sys, sys.pt, sys.pt.phys, sys.ring, sys.ring.buf, ch
    {
      sys.Valid() && ch.Valid() && Tied(sys.waits, ch.threads, at)
    }

    /** A new channel in a running kernel, at addresses nobody sleeps on. */
    constructor (system: System.System, capacity: nat, addresses: Addresses)
      requires system.Valid() && addresses.Own(system.inputChan)
      requires forall i :: 0 <= i < |system.pt.procs| ==>
                 !Sleeps(system.pt.procs, i, addresses.empty) && !Sleeps(system.pt.procs, i, addresses.full)
      ensures Valid() && sys == system && at == addresses && fresh(ch) && ch.capacity == capacity
      ensures ch.moves == [] && ch.buf == []
    {
      sys, at := system, addresses;
      ch := new Channel(capacity, system.pt.nextPid);
      new;
      NewTied(sys, ch.threads, at);
    }

    /** A thread runs, and is known to the channel; the scheduler runs otherwise. */
    predicate Running()
      reads sys, sys.pt, ch
    {
      && sys.pt.current.Some? && sys.pt.current.value < |sys.pt.procs| && sys.pt.procs[sys.pt.current.value].Some?
      && sys.pt.procs[sys.pt.current.value].value.pid < |ch.threads|
    }

    function Me(): nat
      requires Running()
      reads sys, sys.pt, ch
    {
      sys.pt.procs[sys.pt.current.value].value.pid
    }

    /** The channel took one step of its machine, by thread `i`. */
    twostate predicate Stepped(new i: nat, call: Call<T>)
      reads ch
    {
      && Enabled(old(ch.Now()), i) && ch.Now() == Step(old(ch.Now()), i, call)
      && ch.moves == old(ch.moves) + [By(i, call)]
    }

    /** The running thread is not inside send or recv. */
    predicate RunnerOutside()
      reads sys, sys.pt, ch
    {
      Running() ==> ch.threads[Me()].Idle?
    }

    /** An event beside the channel leaves the channel alone; new pids become threads that have not called yet. */
    method Happens(e: Event) returns (ok: bool)
      requires Valid() && sys.Possible(e) && Allows(at, e, RunnerOutside())
      modifies sys, sys.pt, sys.pt.phys, sys.ring, sys.ring.buf, ch`threads, ch`moves
      ensures !ok ==> sys.pt.phys.freePages == 0
      ensures ok ==> Valid()
      ensures ok ==> ch.threads == if e.TakePid? || e.Fork? then old(ch.threads) + [Idle] else old(ch.threads)
      ensures ok ==> ch.moves == if e.TakePid? || e.Fork? then old(ch.moves) + [Joins] else old(ch.moves)
    {
      hide Tied, Inv, Runs, After, Waiting.Inv, System.System.Valid, System.System.Local, System.System.Possible, Own,
           Allows, Takes, Waiting.Runs, Waiting.After;
      ghost var k, trace0 := sys.waits, sys.trace;
      ghost var procs0, pid0, ts := sys.pt.procs, sys.pt.nextPid, ch.threads;
      RunnerIs(sys, ts, at);
      System.WaitsAre(sys);
      var out;
      ok, out := sys.Handle(e);
      if ok {
        AfterEvent(sys, k, trace0, ts, at, e, procs0, pid0);
        if e.TakePid? || e.Fork? {
          ch.Admit();
        }
      }
    }

    /** The running thread calls send or recv. */
    method Arrive(call: Call<T>)
      requires Valid() && Running() && ch.threads[Me()].Idle?
      modifies ch
      ensures Valid() && Stepped(old(Me()), call)
    {
      hide Inv, Runs, After, Waiting.Inv, System.System.Valid, Tied;
      RunnerIs(sys, ch.threads, at);
      System.WaitsAre(sys);
      ghost var pc := if call.Send? then SendWait(call.item) else RecvWait;
      MoveTied(sys.waits, ch.threads, at, pc);
      ghost var ts := ch.threads;
      ch.Arrive(Me(), call);
      assert ch.threads == ts[Me() := pc];
    }

    /** Inside wait, with the semaphore at zero: asleep in the channel and in the process table. */
    method FallAsleep()
      requires Valid() && Running()
      requires (ch.threads[Me()].SendWait? && ch.empty == 0) || (ch.threads[Me()].RecvWait? && ch.full == 0)
      modifies sys, sys.pt, ch
      ensures Valid() && Stepped(old(Me()), Recv) && sys.pt.current.None?
    {
      hide Inv, Runs, After, Waiting.Inv, System.System.Valid, Tied, Waiting.Runs, Waiting.After, Waiting.Do,
           Waiting.Enabled, Step;
      RunnerIs(sys, ch.threads, at);
      System.WaitsAre(sys);
      var me, senders := Me(), ch.threads[Me()].SendWait?;
      ghost var k, trace0, ts := sys.waits, sys.trace, ch.threads;
      ghost var pc := if senders then SendAsleep(ch.threads[me].item) else RecvAsleep;
      SleepTied(k, ts, at, pc);
      var addr := if senders then at.empty else at.full;
      sys.SleepOn(addr);
      WaitsMoved(sys, k, trace0, Waiting.Sleep(addr));
      SleepLeaves(k, addr);
      RunnerNow(sys);
      SleepStep(ch.Now(), me);
      if senders {
        ch.WaitEmpty(me);
      } else {
        ch.WaitFull(me);
      }
    }

    /** Inside signal, after the increment: everyone asleep on the semaphore is woken, in both. */
    method Wake()
      requires Valid() && Running() && (ch.threads[Me()].SendWake? || ch.threads[Me()].RecvWake?)
      modifies sys, sys.pt, ch
      ensures Valid() && Stepped(old(Me()), Recv)
    {
      hide Inv, Runs, After, Waiting.Inv, System.System.Valid, Tied, Waiting.Runs, Waiting.After, Waiting.Do,
           Waiting.Enabled, Step, Awake;
      RunnerIs(sys, ch.threads, at);
      System.WaitsAre(sys);
      var me, senders := Me(), ch.threads[Me()].RecvWake?;
      ghost var k, trace0, ts := sys.waits, sys.trace, ch.threads;
      WakeTied(k, ts, at, senders);
      var addr := if senders then at.empty else at.full;
      sys.WakeOn(addr);
      WaitsMoved(sys, k, trace0, Waiting.Wakeup(addr));
      WakeStep(ch.Now(), me);
      ch.Wakeup(me);
    }

    /** Any other step inside send or recv: a count taken, an item pushed or popped, a count raised. */
    method Move()
      requires Valid() && Running()
      requires var pc := ch.threads[Me()];
        || (pc.SendWait? && ch.empty > 0) || (pc.RecvWait? && ch.full > 0)
        || pc.SendPush? || pc.RecvPop? || pc.SendInc? || pc.RecvInc?
      modifies ch
      ensures Valid() && Stepped(old(Me()), Recv)
    {
      hide Inv, Runs, After, Waiting.Inv, System.System.Valid, Tied, Step;
      RunnerIs(sys, ch.threads, at);
      System.WaitsAre(sys);
      var me, pc := Me(), ch.threads[Me()];
      ghost var s := ch.Now();
      if pc.SendWait? {
        ch.WaitEmpty(me);
      } else if pc.RecvWait? {
        ch.WaitFull(me);
      } else if pc.SendPush? {
        ch.PushBack(me);
      } else if pc.RecvPop? {
        var x := ch.PopFront(me);
      } else {
        ch.Raise(me);
      }
      MoveStep(s, me);
      MoveTied(sys.waits, s.threads, at, ch.threads[me]);
    }

    /** Can this happen now?  Only the running thread calls and goes on. */
    predicate Can(a: Action<T>)
      reads this, sys, sys.pt, sys.pt.phys, ch
    {
      match a
      case Beside(e) => sys.Possible(e) && Allows(at, e, RunnerOutside())
      case Calls(_) => Running() && ch.threads[Me()].Idle?
      case Turn => Running() && !ch.threads[Me()].Idle?
    }

    method Act(a: Action<T>) returns (ok: bool)
      requires Valid() && Can(a)
      modifies sys, sys.pt, sys.pt.phys, sys.ring, sys.ring.buf, ch
      ensures !ok ==> sys.pt.phys.freePages == 0
      ensures ok ==> Valid() && old(ch.moves) <= ch.moves
      ensures ok && !a.Beside? ==> Stepped(old(Me()), if a.Calls? then a.call else Recv)
    {
      hide Inv, Runs, After, System.System.Valid, System.System.Possible, Tied, Step, Allows;
      ok := true;
      if a.Beside? {
        ok := Happens(a.event);
      } else if a.Calls? {
        Arrive(a.call);
      } else {
        RunnerAwake(sys, ch.threads, at);
        var pc := ch.threads[Me()];
        if (pc.SendWait? && ch.empty == 0) || (pc.RecvWait? && ch.full == 0) {
          FallAsleep();
        } else if pc.SendWake? || pc.RecvWake? {
          Wake();
        } else {
          Move();
        }
      }
    }

    /** Any sequence of events, calls and turns, those that cannot happen left out: the items received followed by those
        in the buffer are the items sent, and in the process table no wakeup is lost and the channel does not wedge. */
    method Run(actions: seq<Action<T>>) returns (ok: bool)
      requires Valid()
      modifies sys, sys.pt, sys.pt.phys, sys.ring, sys.ring.buf, ch
      ensures !ok ==> sys.pt.phys.freePages == 0
      ensures ok ==> Valid() && old(ch.moves) <= ch.moves && |ch.buf| <= ch.capacity
      ensures ok ==> Got(Init(ch.capacity, ch.threads0), ch.moves) + ch.buf ==
                       Sent(Init(ch.capacity, ch.threads0), ch.moves)
      ensures ok ==> forall i: nat ::
                && (Sleeps(sys.pt.procs, i, at.empty) && ch.empty > 0 ==> OnItsWay(sys.pt.procs, ch.threads, true))
                && (Sleeps(sys.pt.procs, i, at.full) && ch.full > 0 ==> OnItsWay(sys.pt.procs, ch.threads, false))
      ensures ok && ch.capacity >= 1 && AllAsleep(sys.pt.procs, ch.threads, at) ==>
                forall i: nat, j: nat :: !(Sleeps(sys.pt.procs, i, at.empty) && Sleeps(sys.pt.procs, j, at.full))
    {
      hide Inv, Runs, After, System.System.Valid, System.System.Possible, Tied, Step, Allows, AllAsleep, OnItsWay,
           Sleeps;
      var n := 0;
      while n < |actions|
        invariant 0 <= n <= |actions| && Valid() && old(ch.moves) <= ch.moves
      {
        if Can(actions[n]) {
          var fine := Act(actions[n]);
          if !fine {
            return false;
          }
        }
        n := n + 1;
      }
      Promised(this);
      return true;
    }
  }

  lemma Promised<T>(p: Pipe<T>)
    requires p.Valid()
    ensures |p.ch.buf| <= p.ch.capacity
    ensures Got(Init(p.ch.capacity, p.ch.threads0), p.ch.moves) + p.ch.buf ==
              Sent(Init(p.ch.capacity, p.ch.threads0), p.ch.moves)
    ensures forall i: nat ::
              && (Sleeps(p.sys.pt.procs, i, p.at.empty) && p.ch.empty > 0 ==>
                    OnItsWay(p.sys.pt.procs, p.ch.threads, true))
              && (Sleeps(p.sys.pt.procs, i, p.at.full) && p.ch.full > 0 ==>
                    OnItsWay(p.sys.pt.procs, p.ch.threads, false))
    ensures p.ch.capacity >= 1 && AllAsleep(p.sys.pt.procs, p.ch.threads, p.at) ==>
              forall i: nat, j: nat ::
                !(Sleeps(p.sys.pt.procs, i, p.at.empty) && Sleeps(p.sys.pt.procs, j, p.at.full))
  {
    hide System.System.Valid, Tied, AllAsleep, OnItsWay, Sleeps, Counts, NoLostWakeup, Mirroring.Mirrors, Apply,
         CarriesAt;
    var k, procs, current, s := p.sys.waits, p.sys.pt.procs, p.sys.pt.current, p.ch.Now();
    TableMirrors(p.sys);
    ChannelCorrect(p.ch.capacity, p.ch.threads0, p.ch.moves);
    PopFinds(p.ch.capacity, s);
    forall i: nat
      ensures Sleeps(procs, i, p.at.empty) && s.empty > 0 ==> OnItsWay(procs, s.threads, true)
      ensures Sleeps(procs, i, p.at.full) && s.full > 0 ==> OnItsWay(procs, s.threads, false)
    {
      RealWakeups(k, procs, current, s, p.at, i);
    }
    if p.ch.capacity >= 1 && AllAsleep(procs, s.threads, p.at) {
      forall i: nat, j: nat ensures !(Sleeps(procs, i, p.at.empty) && Sleeps(procs, j, p.at.full)) {
        RealNotWedged(k, procs, current, p.ch.capacity, s, p.at, i, j);
      }
    }
  }

  lemma TableMirrors(sys: System.System)
    requires sys.Valid()
    ensures Mirroring.Mirrors(sys.waits, sys.pt.procs, sys.pt.current)
  {
    hide ProcTable.Valid, System.RoundsOk, Waiting.Runs, Waiting.After, Mirroring.Mirrors;
  }

  /** The running thread is not asleep in the channel. */
  lemma RunnerAwake<T>(sys: System.System, ts: seq<Pc<T>>, at: Addresses)
    requires sys.Valid() && Tied(sys.waits, ts, at) && sys.pt.current.Some?
    ensures
      var c := sys.pt.current.value;
      && c < |sys.pt.procs| && sys.pt.procs[c].Some? && sys.pt.procs[c].value.pid < |ts|
      && !Asleep(ts[sys.pt.procs[c].value.pid])
  {
    RunnerIs(sys, ts, at);
    System.WaitsAre(sys);
    hide System.System.Valid, Waiting.Alive;
    assert SlotTied(sys.waits, ts, at, sys.pt.current.value);
  }
}
