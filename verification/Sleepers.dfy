/**
 The check-then-sleep loops and the handlers that end the wait, on the process table (src/proc.rs:461-481,
 src/timer.rs:33-62, src/console.rs:56-101, src/trap.rs:105-110), one turn of each loop at a time; and the system
 call that forks (src/syscall.rs:103-129).  Waiting carries these steps over whole runs.
 */
module Sleepers {
  import opened Options
  import opened PageTables
  import opened TrapFrames
  import opened Phys
  import opened UserTables
  import opened AddressSpaces
  import opened Builds
  import opened Processes
  import opened ThreadStates
  import opened Scheduler
  import opened Console

  predicate AlivePid(procs: Table, pid: nat)
  {
    exists i :: 0 <= i < |procs| && procs[i].Some? && procs[i].value.pid == pid && !procs[i].value.state.Zombie?
  }

  /** The table after the running thread went to sleep on `chan`. */
  function Slept(procs: Table, i: nat, chan: nat): Table
    requires i < |procs| && procs[i].Some?
  {
    procs[i := Some(procs[i].value.(state := Sleeping(chan)))]
  }

  /** One turn of the loop in join: it returns if no live process has the pid, and otherwise sleeps. */
  method Join(pt: ProcTable, pid: nat) returns (done: bool)
    requires pt.Valid() && pt.current.Some?
    modifies pt`procs, pt`current, pt`satp
    ensures pt.Valid() && (done <==> !AlivePid(old(pt.procs), pid))
    ensures done ==> unchanged(pt)
    ensures !done ==> pt.current.None? && pt.procs == Slept(old(pt.procs), old(pt.current.value), EXIT_CHAN)
  {
    hide TreeOk, FreeOk, KernelKept, BuildsOk, Roots, SpacesOk, PidsOk, HeapsOk, View;
    CurrentRuns(pt.procs, pt.current, pt.satp, pt.phys.kernelRoot);
    var i := 0;
    while i < |pt.procs|
      invariant 0 <= i <= |pt.procs| && unchanged(pt)
      invariant forall j :: 0 <= j < i && pt.procs[j].Some? && pt.procs[j].value.pid == pid ==>
          pt.procs[j].value.state.Zombie?
    {
      if pt.procs[i].Some? && pt.procs[i].value.pid == pid && !pt.procs[i].value.state.Zombie? {
        Sched(pt, Sleeping(EXIT_CHAN));
        return false;
      }
      i := i + 1;
    }
    return true;
  }

  /** One turn of the loop in sleep_ticks. */
  method SleepTicks(pt: ProcTable, ticks: nat, target: nat) returns (done: bool)
    requires pt.Valid() && pt.current.Some?
    modifies pt`procs, pt`current, pt`satp
    ensures pt.Valid() && (done <==> target <= ticks)
    ensures done ==> unchanged(pt)
    ensures !done ==> pt.current.None? && pt.procs == Slept(old(pt.procs), old(pt.current.value), TICK_CHAN)
  {
    done := target <= ticks;
    if !done {
      hide TreeOk, FreeOk, KernelKept, BuildsOk, Roots, SpacesOk, PidsOk, HeapsOk, View;
      CurrentRuns(pt.procs, pt.current, pt.satp, pt.phys.kernelRoot);
      Sched(pt, Sleeping(TICK_CHAN));
    }
  }

  /** One turn of the loop in getchar_blocking: the oldest byte, or asleep on an empty ring. */
  method GetcharBlocking(pt: ProcTable, ring: Ring, inputChan: nat) returns (out: Option<byte>)
    requires pt.Valid() && pt.current.Some? && ring.Valid()
    modifies pt`procs, pt`current, pt`satp, ring`r
    ensures pt.Valid() && ring.Valid() && (out.None? <==> old(ring.Contents()) == [])
    ensures out.Some? ==> unchanged(pt) && [out.value] + ring.Contents() == old(ring.Contents())
    ensures out.None? ==>
              && ring.Contents() == [] && pt.current.None?
              && pt.procs == Slept(old(pt.procs), old(pt.current.value), inputChan)
  {
    hide TreeOk, FreeOk, KernelKept, BuildsOk, Roots, SpacesOk, PidsOk, HeapsOk, View;
    CurrentRuns(pt.procs, pt.current, pt.satp, pt.phys.kernelRoot);
    ghost var q := ring.Contents();
    out := ring.Getchar();
    if out.None? {
      Sched(pt, Sleeping(inputChan));
    } else {
      assert q == [q[0]] + q[1..];
    }
  }

  /** The timer handler up to its wakeup: nobody is left asleep on the tick channel. */
  method OnTick(pt: ProcTable, ticks: nat) returns (ticks': nat)
    requires pt.Valid()
    modifies pt`procs
    ensures pt.Valid() && ticks' == ticks + 1 && |pt.procs| == |old(pt.procs)|
    ensures forall i :: 0 <= i < |pt.procs| ==> pt.procs[i] == Woken(old(pt.procs)[i], TICK_CHAN)
    ensures forall i :: 0 <= i < |pt.procs| && pt.procs[i].Some? ==> pt.procs[i].value.state != Sleeping(TICK_CHAN)
  {
    ticks' := ticks + 1;
    Wakeup(pt, TICK_CHAN);
  }

  /** on_input: the byte is queued unless the ring is full, and nobody is left asleep on it. */
  method OnInput(pt: ProcTable, ring: Ring, inputChan: nat, b: byte)
    requires pt.Valid() && ring.Valid()
    modifies pt`procs, ring`w, ring.buf
    ensures pt.Valid() && ring.Valid() && ring.Contents() == Accept(old(ring.Contents()), b)
    ensures |pt.procs| == |old(pt.procs)|
    ensures forall i :: 0 <= i < |pt.procs| ==> pt.procs[i] == Woken(old(pt.procs)[i], inputChan)
    ensures forall i :: 0 <= i < |pt.procs| && pt.procs[i].Some? ==> pt.procs[i].value.state != Sleeping(inputChan)
  {
    ring.OnInput(b);
    Wakeup(pt, inputChan);
  }

  /** The dispatcher on a fork call.  Parent and child resume at the same instruction after the ecall, with the same
      registers but a0, which is x10: the child's pid in the parent, 0 in the child. */
  method ForkCall(pt: ProcTable, frame: TrapFrame) returns (resumed: Option<TrapFrame>)
    requires pt.Valid() && pt.UserRuns() && frame.Valid()
    modifies pt`procs, pt`nextPid, pt`pending, pt.phys
    ensures resumed.None? ==> pt.phys.freePages == 0
    ensures resumed.Some? ==>
              var i := FirstFree(old(pt.procs));
              && pt.Valid() && i < |pt.procs| && pt.procs[i].Some? && pt.procs[i].value.forkFrame.Some?
              && pt.procs == Place(old(pt.procs), pt.procs[i].value) && pt.procs[i].value.state.Runnable?
              && pt.nextPid == old(pt.nextPid) + 1 && pt.pending == old(pt.pending) && pt.OthersKept(i)
              && var parent, child := resumed.value, pt.procs[i].value.forkFrame.value;
              && parent.Valid() && child.Valid()
              && parent.sepc == child.sepc == frame.sepc + 4 && parent.sstatus == child.sstatus == frame.sstatus
              && (forall k :: 0 <= k < 31 && k != 9 ==> parent.x[k] == child.x[k] == frame.x[k])
              && parent.x[9] == pt.procs[i].value.pid == old(pt.nextPid) && child.x[9] == 0
              && pt.Memory(i) == old(pt.Memory(pt.current.value))
  {
    hide TreeOk, FreeOk, KernelKept, BuildsOk, Roots, SpacesOk, PidsOk, HeapsOk, View, RunOk;
    var after := frame.(sepc := frame.sepc + 4);
    var pid := pt.Fork(after);
    if pid.None? {
      return None;
    }
    return Some(after.WithA0(pid.value));
  }
}
