/**
 The whole kernel, one event at a time: the process table, the console ring and the tick counter, from boot on and
 over any sequence of events.  `waits` is the state of the machine in Waiting that these events drive, with the
 reason for which each thread sleeps; the program keeps only the channel.
 */
module System {
  import opened Options
  import opened Bytes
  import opened PageTables
  import opened Phys
  import opened KernelTable
  import opened AddressSpaces
  import opened Sv39
  import opened TrapFrames
  import opened ThreadStates
  import opened Builds
  import opened Processes
  import opened DemandPaging
  import opened Mirroring
  import opened Isolation
  import opened Events
  import Spawning
  import Console
  import RoundRobin
  import Scheduler
  import Sleepers
  import Survivors
  import UserAccess
  import UserCopy
  import Waiting

  /** The dispatches so far follow one another, and the next scan starts after the last of them. */
  ghost predicate RoundsOk(rounds: seq<RoundRobin.Round>, nextSlot: nat, n: nat)
  {
    && RoundRobin.IsRun(rounds)
    && (rounds != [] ==> var r := rounds[|rounds| - 1]; nextSlot == r.idx + 1 && |r.ready| <= n)
  }

  lemma RoundsNext(rounds: seq<RoundRobin.Round>, r: RoundRobin.Round)
    requires RoundsOk(rounds, r.next, |r.ready|) && r.next <= |r.ready|
    requires RoundRobin.IsPick(r.ready, r.next, Some(r.idx))
    ensures RoundsOk(rounds + [r], r.idx + 1, |r.ready|)
  {
    hide RoundRobin.IsPick;
    RoundRobin.RunNext(rounds, r);
  }

  /** In every run of the kernel: if slot `j` is Runnable at each dispatch from `a` to `b` and another is picked each
      time, there were at most n - 1 of them, with n slots at the first, plus one for every slot appended meanwhile. */
  lemma Fair(s: System, a: nat, b: nat, j: nat)
    requires s.Valid() && a < b <= |s.rounds| && RoundRobin.Waits(s.rounds[a..b], j)
    ensures b - a <= (|s.rounds[a].ready| - 1) + (|s.rounds[b - 1].ready| - |s.rounds[a].ready|)
  {
    hide ProcTable.Valid, RoundRobin.IsRun, RoundRobin.Waits, Waiting.Runs, Waiting.After;
    RoundRobin.RunPart(s.rounds, a, b);
    RoundRobin.BoundedWaiting(s.rounds[a..b], j);
  }

  /** Every page of the pool has exactly one holder. */
  ghost predicate Partitioned(pt: ProcTable)
    reads pt, pt.phys
  {
    forall p :: p in pt.phys.role ==> OneHolder(pt.phys.role, pt.phys.kernelRoot, pt.procs, pt.builds, p)
  }

  ghost predicate OneHolder(role: Roles, kroot: nat, procs: Table, builds: Builds, p: nat)
    requires p in role
  {
    exists h ::
      && HeldBy(role, kroot, procs, builds, p, h)
      && forall g :: HeldBy(role, kroot, procs, builds, p, g) ==> g == h
  }

  lemma ValidPartitioned(pt: ProcTable)
    requires pt.Valid()
    ensures Partitioned(pt)
  {
    hide TreeOk, FreeOk, SpacesOk, BuildsOk, PidsOk, RunOk, HeapsOk, KernelKept, HeldBy;
    forall p | p in pt.phys.role ensures OneHolder(pt.phys.role, pt.phys.kernelRoot, pt.procs, pt.builds, p) {
      var h := Partition(pt.phys.mem, pt.phys.role, pt.phys.kernelRoot, pt.procs, pt.builds, p);
    }
  }

  /** Whoever runs, the kernel can always do with its own pages what their sections are for, and nothing else. */
  lemma ActiveAccess(pt: ProcTable, s: Sections, v: nat, acc: Access)
    requires pt.Valid() && IsKernelMap(pt.boot, pt.bootRoot, s) && s.Ordered() && v < VP_END
    ensures HwTranslate(pt.phys.mem, pt.satp, v, acc, Supervisor(false)) ==
              if SectionAllows(s, v, acc) then Some(v) else None
  {
    if V2(v) != USER_SLOT {
      ActiveRoot(pt, v);
    } else {
      ActiveRoot(pt, 0);
    }
    hide TreeOk, Lookup, HwTranslate, SectionAllows, SpacesOk, PidsOk, RunOk, HeapsOk, BuildsOk, KernelKept, Roots, V2;
    KernelAccess(pt.phys.mem, pt.phys.role, pt.phys.kernelRoot, pt.satp, s, v, acc);
  }

  lemma PoolKept(pt: ProcTable)
    requires pt.Valid()
    ensures pt.phys.role.Keys == pt.pool
  {
  }

  lemma CurrentIs(pt: ProcTable)
    requires pt.Valid()
    ensures pt.current.Some? ==>
              && pt.current.value < |pt.procs| && pt.procs[pt.current.value].Some?
              && pt.procs[pt.current.value].value.state.Running?
    ensures pt.nextSlot <= |pt.procs|
  {
  }

  lemma CurrentHeap(pt: ProcTable)
    requires pt.Valid() && pt.UserRuns()
    ensures pt.procs[pt.current.value].value.heapBase == HEAP_BASE
  {
    assert ProcOk(pt.phys.role, pt.phys.kernelRoot, pt.procs[pt.current.value].value);
  }

  /** The access itself: the process gets what its memory and its break say, or is to be killed. */
  method TryAccess(pt: ProcTable, e: Event) returns (r: Option<Out>)
    requires pt.Valid() && pt.UserRuns() && Live(pt.procs, pt.current.value)
    requires e.Load? || (e.Store? && e.byte < 256)
    modifies pt.phys
    ensures r.None? ==> pt.phys.freePages == 0
    ensures r.Some? ==> pt.Valid() && pt.OthersKept(pt.current.value)
    ensures r.Some? && r != Some(Killed) ==>
              Own(e, Outcome.Access(r.value), pt.procs, old(pt.phys.mem), pt.current.value, pt.procs, pt.phys.mem)
  {
    hide ProcTable.Valid, View, SetByte;
    CurrentHeap(pt);
    if e.Store? {
      r := UserAccess.UserStore(pt, e.va, e.byte);
    } else {
      r := UserAccess.UserLoad(pt, e.va);
    }
  }

  lemma PidFresh(pt: ProcTable)
    requires pt.Valid()
    ensures pt.nextPid !in pt.pending
  {
  }

  /** The running thread is live. */
  lemma RunnerLive(s: System)
    requires s.Valid()
    ensures s.pt.current.Some? ==> Live(s.pt.procs, s.pt.current.value)
  {
    hide ProcTable.Valid, RoundsOk, Waiting.Runs, Waiting.After;
    CurrentIs(s.pt);
  }

  /** What a silent event did to the running process: nothing, or it was its exit. */
  lemma SilentOwn(e: Event, procs0: Table, mem0: Mem, c: Option<nat>, procs: Table, mem: Mem)
    requires Silent(e) && (c.Some? ==> Live(procs0, c.value))
    requires
      || Isolated(procs0, mem0, None, procs, mem)
      || (&& c.Some? && c.value < |procs| && Scheduler.IsZombie(procs[c.value])
          && procs[c.value].value.pid == procs0[c.value].value.pid && Isolated(procs0, mem0, c, procs, mem))
    ensures Isolated(procs0, mem0, c, procs, mem)
    ensures c.Some? ==> Own(e, Nothing, procs0, mem0, c.value, procs, mem)
  {
    hide View, Observes, Effect, SpaceAt;
    if Isolated(procs0, mem0, None, procs, mem) {
      IsolatedFrom(procs0, mem0, c, procs, mem);
      if c.Some? {
        assert Kept(procs0, mem0, procs, mem, c.value);
        OwnSilent(e, procs0, mem0, c.value, procs, mem);
      }
    }
  }

  lemma WaitsAre(s: System)
    requires s.Valid()
    ensures s.pt.Valid() && Waiting.Runs(Waiting.Boot(s.inputChan), s.trace)
    ensures s.waits == Waiting.After(Waiting.Boot(s.inputChan), s.trace) && Waiting.Inv(s.waits)
  {
    hide ProcTable.Valid, RoundsOk, Waiting.Runs, Waiting.After, Waiting.Inv;
    Waiting.BootInv(s.inputChan, s.trace);
  }

  /** One event more, for every process that was live at first. */
  lemma ReplayedMore(s: System, procs0: Table, mem0: Mem, log: seq<Entry>, procs1: Table, mem1: Mem,
                     waits1: Waiting.Kernel, trace1: seq<Waiting.Step>, x: Entry)
    requires s.Valid() && Replayed(procs0, mem0, log, procs1, mem1, waits1)
    requires Isolated(procs1, mem1, x.who, s.pt.procs, s.pt.phys.mem)
    requires x.who.Some? ==>
               && Live(procs1, x.who.value)
               && Own(x.event, x.out, procs1, mem1, x.who.value, s.pt.procs, s.pt.phys.mem)
    requires Waiting.Runs(Waiting.Boot(s.inputChan), trace1)
    requires waits1 == Waiting.After(Waiting.Boot(s.inputChan), trace1) && Waiting.Inv(waits1) && trace1 <= s.trace
    ensures Replayed(procs0, mem0, log + [x], s.pt.procs, s.pt.phys.mem, s.waits)
  {
    hide ProcTable.Valid, RoundsOk, Waiting.Runs, Waiting.After, Waiting.Inv, Mirrors, Isolated, Own, Waiting.Gone,
         Survives;
    WaitsAre(s);
    var more := s.trace[|trace1|..];
    assert s.trace == trace1 + more;
    Waiting.Split(Waiting.Boot(s.inputChan), trace1, more);
    forall j: nat | Live(procs0, j) ensures Survives(procs0, mem0, log + [x], s.pt.procs, s.pt.phys.mem, s.waits, j) {
      var pid := procs0[j].value.pid;
      if Waiting.Gone(waits1, pid) {
        Waiting.GoneRun(waits1, more, pid);
      }
      if j < |s.pt.procs| && s.pt.procs[j].Some? && !Live(s.pt.procs, j) {
        MirrorGone(s.waits, s.pt.procs, s.pt.current, j);
      }
      SurvivesNext(procs0, mem0, log, procs1, mem1, waits1, x, s.pt.procs, s.pt.phys.mem, s.waits, j);
    }
  }

  class System {
    const pt: ProcTable
    const ring: Console.Ring
    /** The channel of console readers. */
    const inputChan: nat
    var ticks: nat
    ghost var waits: Waiting.Kernel
    ghost var trace: seq<Waiting.Step>
    /** Every dispatch so far. */
    ghost var rounds: seq<RoundRobin.Round>
    /** Every event so far, for whom it was and what it told them. */
    ghost var log: seq<Entry>

    ghost predicate Valid()
      reads this, pt, pt.phys, ring, ring.buf
    {
      && pt.Valid() && ring.Valid()
      && Mirrors(waits, pt.procs, pt.current)
      && waits.nextPid == pt.nextPid && waits.pending == pt.pending && waits.ticks == ticks
      && waits.ring == ring.Contents() && waits.inputChan == inputChan
      && Waiting.Runs(Waiting.Boot(inputChan), trace) && waits == Waiting.After(Waiting.Boot(inputChan), trace)
      && RoundsOk(rounds, pt.nextSlot, |pt.procs|)
    }

    /** The event touched no live process but the running one, and records whom it dispatched. */
    twostate predicate Local()
      reads this, pt, pt.phys
    {
      && Isolated(old(pt.procs), old(pt.phys.mem), old(pt.current), pt.procs, pt.phys.mem)
      && old(rounds) <= rounds && Runner(rounds[|old(rounds)|..], old(pt.current), pt.current)
    }

    /** The event touched no live process at all. */
    twostate predicate Untouched()
      reads this, pt, pt.phys
    {
      && Isolated(old(pt.procs), old(pt.phys.mem), None, pt.procs, pt.phys.mem)
      && old(rounds) <= rounds && Runner(rounds[|old(rounds)|..], old(pt.current), pt.current)
    }

    /** The kernel after boot. */
    constructor (k: PhysMem, chan: nat)
      requires k.Booted() && OnlyRoot(k.role, k.kernelRoot) && NoLoose(k.role)
      ensures Valid() && fresh(pt) && fresh(ring) && fresh(ring.buf) && pt.phys == k && inputChan == chan && trace == []
      ensures pt.pool == k.role.Keys && pt.boot == k.mem && pt.bootRoot == k.kernelRoot
    {
      pt := new ProcTable(k);
      ring := new Console.Ring();
      inputChan, ticks := chan, 0;
      waits, trace, rounds, log := Waiting.Boot(chan), [], [], [];
    }

    /** One step of the machine in Waiting. */
    ghost method Advance(s: Waiting.Step)
      requires Waiting.Runs(Waiting.Boot(inputChan), trace) && waits == Waiting.After(Waiting.Boot(inputChan), trace)
      requires Waiting.Enabled(waits, s)
      modifies `waits, `trace
      ensures Waiting.Runs(Waiting.Boot(inputChan), trace) && waits == Waiting.After(Waiting.Boot(inputChan), trace)
      ensures trace == old(trace) + [s] && waits == Waiting.Do(old(waits), s)
    {
      hide Waiting.Runs, Waiting.After, Waiting.Do, Waiting.Enabled;
      Waiting.OneMore(Waiting.Boot(inputChan), trace, s);
      trace := trace + [s];
      waits := Waiting.Do(waits, s);
    }

    // --- events of the running thread that change who waits ---

    method Yield()
      requires Valid() && pt.current.Some?
      modifies `waits, `trace, pt
      ensures Valid() && Untouched() && trace == old(trace) + [Waiting.Yield]
    {
      hide ProcTable.Valid, RoundRobin.IsRun, RoundRobin.IsPick, Waiting.Runs, Waiting.After, View;
      CurrentIs(pt);
      MirrorLeave(waits, pt.procs, pt.current, Waiting.Ready, Runnable);
      Advance(Waiting.Yield);
      Scheduler.Sched(pt, Runnable);
    }

    method Exit()
      requires Valid() && pt.current.Some?
      modifies `waits, `trace, pt
      ensures Valid() && Local() && trace == old(trace) + [Waiting.Exit]
      ensures
        var c := old(pt.current.value);
        && c < |pt.procs| && Scheduler.IsZombie(pt.procs[c])
        && old(Live(pt.procs, pt.current.value)) && pt.procs[c].value.pid == old(pt.procs[pt.current.value].value.pid)
    {
      hide ProcTable.Valid, RoundRobin.IsRun, RoundRobin.IsPick, Waiting.Runs, Waiting.After, View, Scheduler.Woken;
      CurrentIs(pt);
      ghost var procs0, current0 := pt.procs, pt.current;
      Scheduler.Exit(pt);
      MirrorExit(waits, procs0, pt.procs, current0);
      WokenIsolated(procs0, pt.procs, pt.phys.mem, current0, EXIT_CHAN);
      Advance(Waiting.Exit);
    }

    method Join(pid: nat) returns (done: bool)
      requires Valid() && pt.current.Some?
      modifies `waits, `trace, pt
      ensures Valid() && Untouched() && trace == old(trace) + [Waiting.Join(pid)]
    {
      hide ProcTable.Valid, RoundRobin.IsRun, RoundRobin.IsPick, Waiting.Runs, Waiting.After, View, Waiting.Alive,
           Sleepers.AlivePid;
      CurrentIs(pt);
      MirrorAlive(waits, pt.procs, pt.current, pid);
      MirrorLeave(waits, pt.procs, pt.current, Waiting.Asleep(Waiting.Exited(pid)), Sleeping(EXIT_CHAN));
      Advance(Waiting.Join(pid));
      done := Sleepers.Join(pt, pid);
    }

    method SleepTicks(target: nat) returns (done: bool)
      requires Valid() && pt.current.Some?
      modifies `waits, `trace, pt
      ensures Valid() && Untouched() && trace == old(trace) + [Waiting.SleepTicks(target)]
    {
      hide ProcTable.Valid, RoundRobin.IsRun, RoundRobin.IsPick, Waiting.Runs, Waiting.After, View;
      CurrentIs(pt);
      MirrorLeave(waits, pt.procs, pt.current, Waiting.Asleep(Waiting.Ticked(target)), Sleeping(TICK_CHAN));
      Advance(Waiting.SleepTicks(target));
      done := Sleepers.SleepTicks(pt, ticks, target);
    }

    method Getchar() returns (out: Option<Console.byte>)
      requires Valid() && pt.current.Some?
      modifies `waits, `trace, pt, ring
      ensures Valid() && Untouched() && trace == old(trace) + [Waiting.Getchar]
    {
      hide ProcTable.Valid, RoundRobin.IsRun, RoundRobin.IsPick, Waiting.Runs, Waiting.After, View;
      CurrentIs(pt);
      ghost var q := ring.Contents();
      MirrorLeave(waits, pt.procs, pt.current, Waiting.Asleep(Waiting.Input), Sleeping(inputChan));
      Advance(Waiting.Getchar);
      out := Sleepers.GetcharBlocking(pt, ring, inputChan);
      assert out.Some? ==> ring.Contents() == q[1..];
    }

    /** Sleep on any other channel, as a semaphore does. */
    method SleepOn(chan: nat)
      requires Valid() && pt.current.Some?
      modifies `waits, `trace, pt
      ensures Valid() && Untouched() && trace == old(trace) + [Waiting.Sleep(chan)]
    {
      hide ProcTable.Valid, RoundRobin.IsRun, RoundRobin.IsPick, Waiting.Runs, Waiting.After, View;
      CurrentIs(pt);
      MirrorLeave(waits, pt.procs, pt.current, Waiting.Asleep(Waiting.Other(chan)), Sleeping(chan));
      Advance(Waiting.Sleep(chan));
      Scheduler.Sched(pt, Sleeping(chan));
    }

    method WakeOn(chan: nat)
      requires Valid()
      modifies `waits, `trace, pt
      ensures Valid() && Untouched() && trace == old(trace) + [Waiting.Wakeup(chan)]
    {
      hide ProcTable.Valid, RoundRobin.IsRun, RoundRobin.IsPick, Waiting.Runs, Waiting.After, View, Scheduler.Woken;
      ghost var procs0 := pt.procs;
      Scheduler.Wakeup(pt, chan);
      MirrorWoken(waits, procs0, pt.procs, pt.current, chan);
      WokenIsolated(procs0, pt.procs, pt.phys.mem, None, chan);
      Advance(Waiting.Wakeup(chan));
    }

    // --- interrupts ---

    method Tick()
      requires Valid()
      modifies `waits, `trace, `ticks, pt
      ensures Valid() && Untouched() && trace == old(trace) + [Waiting.Tick] && ticks == old(ticks) + 1
    {
      hide ProcTable.Valid, RoundRobin.IsRun, RoundRobin.IsPick, Waiting.Runs, Waiting.After, View, Scheduler.Woken;
      ghost var procs0 := pt.procs;
      ticks := Sleepers.OnTick(pt, ticks);
      MirrorWakes(waits, waits.(ticks := waits.ticks + 1), procs0, pt.procs, pt.current, TICK_CHAN);
      WokenIsolated(procs0, pt.procs, pt.phys.mem, None, TICK_CHAN);
      Advance(Waiting.Tick);
    }

    method Receive(b: Console.byte)
      requires Valid()
      modifies `waits, `trace, pt, ring, ring.buf
      ensures Valid() && Untouched() && trace == old(trace) + [Waiting.Receive(b)]
    {
      hide ProcTable.Valid, RoundRobin.IsRun, RoundRobin.IsPick, Waiting.Runs, Waiting.After, View, Scheduler.Woken;
      ghost var procs0 := pt.procs;
      Sleepers.OnInput(pt, ring, inputChan, b);
      MirrorWakes(waits, waits.(ring := Console.Accept(waits.ring, b)), procs0, pt.procs, pt.current, inputChan);
      WokenIsolated(procs0, pt.procs, pt.phys.mem, None, inputChan);
      Advance(Waiting.Receive(b));
    }

    // --- the scheduler ---

    method Reap(i: nat)
      requires Valid() && pt.current.None? && i < |pt.procs| && Scheduler.IsZombie(pt.procs[i])
      modifies `waits, `trace, pt, pt.phys
      ensures Valid() && Untouched() && trace == old(trace) + [Waiting.Reap(i)]
    {
      hide ProcTable.Valid, RoundRobin.IsRun, RoundRobin.IsPick, Waiting.Runs, Waiting.After, View;
      MirrorReap(waits, pt.procs, i);
      Advance(Waiting.Reap(i));
      Scheduler.ReapSlot(pt, i);
    }

    method Dispatch() returns (picked: Option<nat>)
      requires Valid() && pt.current.None?
      modifies `waits, `trace, `rounds, pt
      ensures Valid() && Untouched()
      ensures trace == old(trace) + (if picked.Some? then [Waiting.Dispatch(picked.value)] else [])
    {
      hide ProcTable.Valid, RoundRobin.IsRun, RoundRobin.Distance, Waiting.Runs, Waiting.After, View;
      CurrentIs(pt);
      ghost var procs0, next0 := pt.procs, pt.nextSlot;
      picked := Scheduler.Dispatch(pt);
      if picked.Some? {
        MirrorDispatch(waits, procs0, picked.value);
        Advance(Waiting.Dispatch(picked.value));
        RoundsNext(rounds, RoundRobin.Round(Scheduler.ReadyOf(procs0), next0, picked.value));
        rounds := rounds + [RoundRobin.Round(Scheduler.ReadyOf(procs0), next0, picked.value)];
      }
    }

    // --- new processes ---

    method TakePid() returns (pid: nat)
      requires Valid()
      modifies `waits, `trace, pt
      ensures Valid() && Untouched() && trace == old(trace) + [Waiting.TakePid] && pid == old(pt.nextPid)
    {
      hide RoundRobin.IsRun, RoundRobin.IsPick, Waiting.Runs, Waiting.After, View, BuildsOk, ProcTable.Core;
      MirrorTake(waits, pt.procs, pt.current);
      Advance(Waiting.TakePid);
      pid := pt.TakePid(Roots(pt.builds));
    }

    method StartThread(pid: nat)
      requires Valid() && pid in pt.pending
      modifies `waits, `trace, pt
      ensures Valid() && Untouched() && trace == old(trace) + [Waiting.Publish(pid, FirstFree(old(pt.procs)))]
    {
      hide ProcTable.Valid, RoundRobin.IsRun, RoundRobin.IsPick, Waiting.Runs, Waiting.After, View, FirstFree;
      MirrorPlace(waits, pt.procs, pt.current, KernelThread(pid, pt.phys.kernelRoot));
      Advance(Waiting.Publish(pid, FirstFree(pt.procs)));
      pt.StartThread(pid);
    }

    method BeginImage(id: nat, image: seq<nat>)
      requires Valid() && id !in pt.builds && LoadableImage(image)
      modifies pt
      ensures Valid() && Untouched() && pt.builds == old(pt.builds)[id := Starting(image)]
    {
      hide ProcTable.Valid, RoundRobin.IsRun, RoundRobin.IsPick, Waiting.Runs, Waiting.After, View, Mirrors;
      Spawning.Begin(pt, id, image);
    }

    method BuildStep(id: nat) returns (ok: bool)
      requires Valid() && id in pt.builds
      modifies pt, pt.phys
      ensures !ok ==> pt.phys.freePages == 0
      ensures Valid() && Untouched() && id in pt.builds && pt.builds == old(pt.builds)[id := pt.builds[id]]
      ensures pt.builds[id].image == old(pt.builds)[id].image
    {
      hide ProcTable.Valid, RoundRobin.IsRun, RoundRobin.IsPick, Waiting.Runs, Waiting.After, View, Mirrors;
      var r := Spawning.Step(pt, id);
      ok := !r.OutOfPages?;
    }

    method FinishImage(id: nat, pid: nat)
      requires Valid() && id in pt.builds && Spawning.Complete(pt.builds[id]) && pid in pt.pending
      modifies `waits, `trace, pt
      ensures Valid() && Untouched() && trace == old(trace) + [Waiting.Publish(pid, FirstFree(old(pt.procs)))]
    {
      hide ProcTable.Valid, RoundRobin.IsRun, RoundRobin.IsPick, Waiting.Runs, Waiting.After, View, FirstFree;
      MirrorPlace(waits, pt.procs, pt.current, Fresh(pid, pt.builds[id].root));
      Advance(Waiting.Publish(pid, FirstFree(pt.procs)));
      Spawning.Finish(pt, id, pid);
    }

    /** fork runs with interrupts off: it takes the pid and publishes the child in one event. */
    method Fork(frame: TrapFrame) returns (ok: bool)
      requires Valid() && pt.UserRuns() && frame.Valid()
      modifies `waits, `trace, pt, pt.phys
      ensures ok ==> Valid() && Untouched()
      ensures ok ==>
                trace == old(trace) + [Waiting.TakePid, Waiting.Publish(old(pt.nextPid), FirstFree(old(pt.procs)))]
      ensures !ok ==> pt.phys.freePages == 0
    {
      hide ProcTable.Valid, RoundRobin.IsRun, RoundRobin.IsPick, Waiting.Runs, Waiting.After, View, FirstFree, Mirrors,
           Waiting.Do, Waiting.Enabled;
      ghost var procs0, pid0 := pt.procs, pt.nextPid;
      PidFresh(pt);
      var resumed := Sleepers.ForkCall(pt, frame);
      ok := resumed.Some?;
      if ok {
        MirrorFork(waits, procs0, pt.current, pt.procs[FirstFree(procs0)].value);
        Advance(Waiting.TakePid);
        Advance(Waiting.Publish(pid0, FirstFree(procs0)));
      }
    }

    // --- what a process does to its own memory ---

    method Exec(image: seq<nat>) returns (ok: bool)
      requires Valid() && pt.UserRuns() && LoadableImage(image)
      modifies `waits, `trace, pt, pt.phys
      ensures ok ==> Valid() && Local() && trace == old(trace) && Live(old(pt.procs), old(pt.current.value))
      ensures ok ==> Own(Event.Exec(image), Nothing, old(pt.procs), old(pt.phys.mem), old(pt.current.value),
                         pt.procs, pt.phys.mem)
      ensures !ok ==> pt.phys.freePages == 0
    {
      hide ProcTable.Valid, RoundRobin.IsRun, RoundRobin.IsPick, Waiting.Runs, Waiting.After, View, ImageView,
           Owner, Mirrors;
      CurrentIs(pt);
      ghost var procs0, c := pt.procs, pt.current.value;
      ok := pt.Exec(image);
      if ok {
        MirrorRecord(waits, procs0, pt.current, c, pt.procs[c].value);
      }
    }

    method Sbrk(delta: nat) returns (r: nat)
      requires Valid() && pt.UserRuns()
      modifies pt
      ensures Valid() && Local() && Live(old(pt.procs), old(pt.current.value))
      ensures Own(Event.Sbrk(delta), Break(r), old(pt.procs), old(pt.phys.mem), old(pt.current.value),
                  pt.procs, pt.phys.mem)
    {
      hide ProcTable.Valid, RoundRobin.IsRun, RoundRobin.IsPick, Waiting.Runs, Waiting.After, View;
      CurrentIs(pt);
      ghost var procs0, c := pt.procs, pt.current.value;
      r := pt.Sbrk(delta);
      MirrorRecord(waits, procs0, pt.current, c, pt.procs[c].value);
      assert pt.procs == procs0[c := Some(pt.procs[c].value)];
    }

    /** A user load or store; a process whose access is refused dies. */
    method Access(e: Event) returns (ok: bool, out: Outcome)
      requires Valid() && pt.UserRuns() && (e.Load? || (e.Store? && e.byte < 256))
      modifies `waits, `trace, pt, pt.phys
      ensures ok ==> Valid() && Local() && Live(old(pt.procs), old(pt.current.value))
      ensures ok ==> trace == old(trace) || trace == old(trace) + [Waiting.Exit]
      ensures ok ==> Own(e, out, old(pt.procs), old(pt.phys.mem), old(pt.current.value), pt.procs, pt.phys.mem)
      ensures !ok ==> pt.phys.freePages == 0
    {
      hide ProcTable.Valid, RoundRobin.IsRun, RoundRobin.IsPick, Waiting.Runs, Waiting.After, View, Mirrors, SpaceAt,
           Observes, Effect;
      CurrentIs(pt);
      var r := TryAccess(pt, e);
      ok, out := r.Some?, Nothing;
      if ok {
        out := Outcome.Access(r.value);
        if r.value.Killed? {
          Exit();
        }
      }
    }

    /** A system call that reads user memory. */
    method CopyIn(ptr: nat, len: nat) returns (buf: Option<seq<nat>>)
      requires Valid() && pt.UserRuns()
      modifies pt.phys
      ensures Valid() && Local() && Live(old(pt.procs), old(pt.current.value))
      ensures Own(Event.CopyIn(ptr, len), Bytes(buf), old(pt.procs), old(pt.phys.mem), old(pt.current.value),
                  pt.procs, pt.phys.mem)
    {
      hide ProcTable.Valid, RoundRobin.IsRun, RoundRobin.IsPick, Waiting.Runs, Waiting.After, View, Mirrors,
           UserCopy.Accepts, UserCopy.ViewByte;
      CurrentIs(pt);
      buf := UserCopy.CopyFromUser(pt, ptr, len);
      ghost var view := pt.Memory(pt.current.value);
      assert buf.Some? ==> buf.value == seq<nat>(len, i requires 0 <= i < len => UserCopy.ViewByte(view, ptr + i));
    }

    /** A system call that writes user memory. */
    method CopyOut(ptr: nat, src: seq<nat>) returns (n: Option<nat>)
      requires Valid() && pt.UserRuns() && UserCopy.IsBytes(src)
      modifies pt.phys
      ensures Valid() && Local() && Live(old(pt.procs), old(pt.current.value))
      ensures Own(Event.CopyOut(ptr, src), Written(n), old(pt.procs), old(pt.phys.mem), old(pt.current.value),
                  pt.procs, pt.phys.mem)
    {
      hide ProcTable.Valid, RoundRobin.IsRun, RoundRobin.IsPick, Waiting.Runs, Waiting.After, View, Mirrors,
           UserCopy.Accepts, UserCopy.StoreAll;
      CurrentIs(pt);
      n := UserCopy.CopyToUser(pt, ptr, src);
    }

    // --- runs ---

    /** Can this event happen now?  A process is running, or the scheduler is; an image fits below the stack. */
    predicate Possible(e: Event)
      reads this, pt, pt.phys
    {
      match e
      case TakePid => true
      case StartThread(pid) => pid in pt.pending
      case BeginImage(id, image) => id !in pt.builds && LoadableImage(image)
      case BuildStep(id) => id in pt.builds
      case FinishImage(id, pid) => id in pt.builds && Spawning.Complete(pt.builds[id]) && pid in pt.pending
      case Fork(frame) => InUserProcess() && frame.Valid()
      case Exec(image) => InUserProcess() && LoadableImage(image)
      case Sbrk(_) => InUserProcess()
      case Load(_) => InUserProcess()
      case Store(_, b) => InUserProcess() && b < 256
      case CopyIn(_, _) => InUserProcess()
      case CopyOut(_, src) => InUserProcess() && UserCopy.IsBytes(src)
      case WakeOn(_) => true
      case Tick => true
      case Receive(_) => true
      case Reap(i) => pt.current.None? && i < |pt.procs| && Scheduler.IsZombie(pt.procs[i])
      case Dispatch => pt.current.None?
      case _ => pt.current.Some?
    }

    predicate InUserProcess()
      reads pt
    {
      && pt.current.Some? && pt.current.value < |pt.procs| && pt.procs[pt.current.value].Some?
      && pt.procs[pt.current.value].value.userTable.Some?
    }

    /** An event that tells its process nothing. */
    method HandleSilent(e: Event) returns (ok: bool)
      requires Valid() && Possible(e) && Silent(e)
      modifies `waits, `trace, `rounds, `ticks, pt, pt.phys, ring, ring.buf
      ensures !ok ==> pt.phys.freePages == 0
      ensures ok ==> Valid() && (Untouched() || (e.Exit? && Local()))
      ensures ok && e.Exit? ==>
                var c := old(pt.current.value);
                && c < |pt.procs| && Scheduler.IsZombie(pt.procs[c])
                && old(Live(pt.procs, pt.current.value))
                && pt.procs[c].value.pid == old(pt.procs[pt.current.value].value.pid)
      ensures ok ==> old(trace) <= trace && Takes(e, old(pt.procs), old(pt.nextPid), trace[|old(trace)|..])
    {
      hide ProcTable.Valid, RoundRobin.IsRun, RoundRobin.IsPick, Waiting.Runs, Waiting.After, Mirrors, FirstFree,
           Isolated, Runner, RoundsOk, System.Valid, System.Local, System.Untouched;
      ok := true;
      match e
      case TakePid => var pid := TakePid();
      case StartThread(pid) => StartThread(pid);
      case BeginImage(id, image) => BeginImage(id, image);
      case BuildStep(id) => ok := BuildStep(id);
      case FinishImage(id, pid) => FinishImage(id, pid);
      case Fork(frame) => ok := Fork(frame);
      case Yield => Yield();
      case Exit => Exit();
      case Join(pid) => var done := Join(pid);
      case SleepTicks(target) => var done := SleepTicks(target);
      case Getchar => var out := Getchar();
      case SleepOn(chan) => SleepOn(chan);
      case WakeOn(chan) => WakeOn(chan);
      case Tick => Tick();
      case Receive(b) => Receive(b);
      case Reap(i) => Reap(i);
      case Dispatch => var picked := Dispatch();
    }

    /** One event.  `ok` is false if the kernel panicked for want of pages.  Otherwise it takes its steps of Waiting,
        touches no live process but the running one, and is to that process what its own memory and break say. */
    method Handle(e: Event) returns (ok: bool, out: Outcome)
      requires Valid() && Possible(e)
      modifies this, pt, pt.phys, ring, ring.buf
      ensures !ok ==> pt.phys.freePages == 0
      ensures ok ==> Valid() && Local()
      ensures ok ==> old(trace) <= trace && Takes(e, old(pt.procs), old(pt.nextPid), trace[|old(trace)|..])
      ensures ok ==> log == old(log) + [Entry(old(pt.current), e, out)]
      ensures ok && old(pt.current).Some? ==>
                && Live(old(pt.procs), old(pt.current.value))
                && Own(e, out, old(pt.procs), old(pt.phys.mem), old(pt.current.value), pt.procs, pt.phys.mem)
    {
      hide ProcTable.Valid, RoundRobin.IsRun, RoundRobin.IsPick, Waiting.Runs, Waiting.After, Mirrors, FirstFree,
           Isolated, Runner, RoundsOk, Own, SpaceAt, Kept;
      ghost var who, procs0, mem0 := pt.current, pt.procs, pt.phys.mem;
      RunnerLive(this);
      ok, out := true, Nothing;
      if e.Exec? {
        ok := Exec(e.image);
      } else if e.Sbrk? {
        var r := Sbrk(e.delta);
        out := Break(r);
      } else if e.Load? || e.Store? {
        ok, out := Access(e);
      } else if e.CopyIn? {
        var buf := CopyIn(e.ptr, e.len);
        out := Bytes(buf);
      } else if e.CopyOut? {
        var n := CopyOut(e.ptr, e.src);
        out := Written(n);
      } else {
        ok := HandleSilent(e);
        if ok {
          SilentOwn(e, procs0, mem0, who, pt.procs, pt.phys.mem);
        }
      }
      log := log + [Entry(who, e, out)];
    }

    /** Any sequence of events, those that cannot happen left out.  Unless the kernel runs out of pages and panics, at
        the end every page has exactly one holder; every sleeping thread still waits for something that has not
        happened; a process that was never dispatched has the memory it had; and every process that was live at first
        either is dead for good, or has the memory and break, and was told everything, that replaying its own events
        alone gives, whatever happened in between. */
    method Run(events: seq<Event>) returns (ok: bool)
      requires Valid()
      modifies this, pt, pt.phys, ring, ring.buf
      ensures !ok ==> pt.phys.freePages == 0
      ensures ok ==> Valid() && old(trace) <= trace && Partitioned(pt) && Waiting.Inv(waits)
      ensures ok ==> old(rounds) <= rounds
      ensures ok ==> RestersKept(old(pt.procs), old(pt.phys.mem), old(pt.current), rounds[|old(rounds)|..],
                                 pt.procs, pt.phys.mem, pt.current)
      ensures ok ==> old(log) <= log && Handled(log[|old(log)|..], events)
      ensures ok ==> Replayed(old(pt.procs), old(pt.phys.mem), log[|old(log)|..], pt.procs, pt.phys.mem, waits)
    {
      hide ProcTable.Valid, RoundRobin.IsRun, RoundRobin.IsPick, Waiting.Runs, Waiting.After, Mirrors, Waiting.Inv,
           Partitioned, RestersKept, Isolated, Runner, RoundsOk, Takes, Replayed, Own, Handled, System.Valid;
      ghost var procs0, mem0, current0, rounds0, log0 := pt.procs, pt.phys.mem, pt.current, rounds, log;
      RestersFirst(procs0, mem0, current0);
      ReplayedFirst(procs0, mem0, waits);
      HandledFirst();
      assert rounds[|rounds0|..] == [] && log[|log0|..] == [] && events[..0] == [];
      var i := 0;
      while i < |events|
        invariant 0 <= i <= |events| && Valid() && old(trace) <= trace && rounds0 <= rounds && log0 <= log
        invariant RestersKept(procs0, mem0, current0, rounds[|rounds0|..], pt.procs, pt.phys.mem, pt.current)
        invariant Handled(log[|log0|..], events[..i])
        invariant Replayed(procs0, mem0, log[|log0|..], pt.procs, pt.phys.mem, waits)
      {
        assert events[..i + 1] == events[..i] + [events[i]];
        if Possible(events[i]) {
          ghost var procs1, mem1, current1, rounds1 := pt.procs, pt.phys.mem, pt.current, rounds;
          ghost var log1, waits1, trace1 := log, waits, trace;
          WaitsAre(this);
          var fine, out := Handle(events[i]);
          if !fine {
            return false;
          }
          assert rounds[|rounds0|..] == rounds1[|rounds0|..] + rounds[|rounds1|..];
          assert Isolated(procs1, mem1, current1, pt.procs, pt.phys.mem);
          RestersNext(procs0, mem0, current0, rounds1[|rounds0|..], procs1, mem1, current1, rounds[|rounds1|..],
                      pt.procs, pt.phys.mem, pt.current);
          ghost var x := Entry(current1, events[i], out);
          assert log[|log0|..] == log1[|log0|..] + [x];
          HandledMore(log1[|log0|..], events[..i], x);
          ReplayedMore(this, procs0, mem0, log1[|log0|..], procs1, mem1, waits1, trace1, x);
        } else {
          HandledLess(log[|log0|..], events[..i], events[i]);
        }
        i := i + 1;
      }
      assert events[..i] == events;
      WaitsAre(this);
      ValidPartitioned(pt);
      return true;
    }
  }

  lemma LiveHeap(s: System, j: nat)
    requires s.Valid() && Live(s.pt.procs, j) && s.pt.procs[j].value.userTable.Some?
    ensures Survivors.HeapSpace(SpaceAt(s.pt.procs, s.pt.phys.mem, j))
  {
    hide RoundsOk, Waiting.Runs, Waiting.After, Mirrors, View, HeapOk, TreeOk, FreeOk, BuildsOk;
    assert ProcOk(s.pt.phys.role, s.pt.phys.kernelRoot, s.pt.procs[j].value);
  }

  /** Demand paging in the whole kernel.  Let anything happen, to anyone: a process that was live at first and is not
      dead at the end was told by its own heap exactly what an eager, zero-filled heap would have told it, unless it
      replaced its image or had the kernel write into its memory. */
  method Watch(s: System, events: seq<Event>, j: nat, ghost e: Eager) returns (ok: bool)
    requires s.Valid() && Live(s.pt.procs, j) && s.pt.procs[j].value.userTable.Some?
    requires Sim(Survivors.Heap(SpaceAt(s.pt.procs, s.pt.phys.mem, j)), e)
    modifies s, s.pt, s.pt.phys, s.ring, s.ring.buf
    ensures !ok ==> s.pt.phys.freePages == 0
    ensures ok ==> s.Valid() && old(s.log) <= s.log && Handled(s.log[|old(s.log)|..], events)
    ensures
      var log := if ok then s.log[|old(s.log)|..] else [];
      ok && !Waiting.Gone(s.waits, old(s.pt.procs[j].value.pid)) && Survivors.HeapOnly(log, j) ==>
        Survivors.OutsOf(log, j) == EagerRun(e, Survivors.OpsOf(log, j))
  {
    hide System.Valid, Sim, Survivors.Heap, SpaceAt, Waiting.Gone, Survivors.HeapOnly, Survivors.OutsOf,
         Survivors.OpsOf, RestersKept, Partitioned, Handled, Explained, Replay, Survivors.HeapSpace;
    LiveHeap(s, j);
    ghost var procs0, mem0, log0 := s.pt.procs, s.pt.phys.mem, s.log;
    ok := s.Run(events);
    ghost var log := if ok then s.log[|log0|..] else [];
    if ok && !Waiting.Gone(s.waits, procs0[j].value.pid) && Survivors.HeapOnly(log, j) {
      assert Survives(procs0, mem0, log, s.pt.procs, s.pt.phys.mem, s.waits, j);
      Survivors.SurvivorSeesEager(SpaceAt(procs0, mem0, j), log, j, e);
    }
  }

  /** From power-on: seed the page allocator, build the kernel table, and let anything happen.  There is no system at
      the end only if the kernel ran out of pages. */
  method PowerOn(dram: Mem, allocStart: nat, reserved: Option<(nat, nat)>, s: Sections, inputChan: nat,
                 events: seq<Event>)
    returns (k: PhysMem, system: System?)
    requires 0 < allocStart && s.Ordered()
    requires forall p: nat :: InPool(allocStart, reserved, p) ==> p in dram && |dram[p]| == WORDS
    ensures fresh(k) && (system == null ==> k.freePages == 0)
    ensures system != null ==> fresh(system) && system.pt.phys == k && system.Valid()
    ensures system != null ==> Partitioned(system.pt) && Waiting.Inv(system.waits)
    ensures system != null ==> forall p: nat :: p in k.role <==> InPool(allocStart, reserved, p)
    ensures system != null ==> forall v: nat, acc :: v < VP_END ==>
              HwTranslate(k.mem, system.pt.satp, v, acc, Supervisor(false)) ==
                if SectionAllows(s, v, acc) then Some(v) else None
  {
    hide ProcTable.Valid, RoundRobin.IsRun, RoundRobin.IsPick, Waiting.Runs, Waiting.After, Mirrors, Waiting.Inv,
         Partitioned, FreeOk, TreeOk, InPool, RestersKept, Replayed, Handled, IsKernelMap, HwTranslate, SectionAllows;
    k := new PhysMem(dram, allocStart, reserved);
    var ok := KvmMake(k, s);
    if !ok {
      return k, null;
    }
    system := new System(k, inputChan);
    ok := system.Run(events);
    if !ok {
      return k, null;
    }
    PoolKept(system.pt);
    forall v: nat, acc | v < VP_END
      ensures HwTranslate(k.mem, system.pt.satp, v, acc, Supervisor(false)) ==
                if SectionAllows(s, v, acc) then Some(v) else None
    {
      ActiveAccess(system.pt, s, v, acc);
    }
    assert forall p: nat :: p in system.pt.phys.role <==> p in system.pt.phys.role.Keys;
  }
}
