/**
 The events of the kernel, the steps of Waiting each of them takes, and what each means to the process that runs: a
 process is its memory and its break, and its own loads, stores and calls are functions of these.
 */
module Events {
  import opened Options
  import opened Bytes
  import opened PageTables
  import opened Phys
  import opened UserTables
  import opened AddressSpaces
  import opened TrapFrames
  import opened ThreadStates
  import opened Sv39
  import opened Processes
  import opened Console
  import opened Isolation
  import DemandPaging
  import UserAccess
  import UserCopy
  import Waiting

  /** What can happen next.  System calls and faults are events of the running process, ticks and bytes of the devices,
      reaping and dispatching of the scheduler.  A spawn is several events, and the steps of a build as well, since the
      threads that spawn can be preempted in between. */
  datatype Event =
    | TakePid | StartThread(pid: nat)
    | BeginImage(id: nat, image: seq<nat>) | BuildStep(id: nat) | FinishImage(id: nat, pid: nat)
    | Fork(frame: TrapFrame) | Exec(image: seq<nat>) | Sbrk(delta: nat)
    | Load(va: nat) | Store(va: nat, byte: nat) | CopyIn(ptr: nat, len: nat) | CopyOut(ptr: nat, src: seq<nat>)
    | Yield | Exit | Join(pid: nat) | SleepTicks(target: nat) | Getchar | SleepOn(chan: nat) | WakeOn(chan: nat)
    | Tick | Receive(b: byte)
    | Reap(slot: nat) | Dispatch

  /** The steps of Waiting that an event takes.  A load or store may kill its process; a dispatch may find nobody. */
  predicate Takes(e: Event, procs: Table, nextPid: nat, steps: seq<Waiting.Step>)
  {
    match e
    case TakePid => steps == [Waiting.TakePid]
    case StartThread(pid) => steps == [Waiting.Publish(pid, FirstFree(procs))]
    case FinishImage(_, pid) => steps == [Waiting.Publish(pid, FirstFree(procs))]
    case Fork(_) => steps == [Waiting.TakePid, Waiting.Publish(nextPid, FirstFree(procs))]
    case Load(_) => steps == [] || steps == [Waiting.Exit]
    case Store(_, _) => steps == [] || steps == [Waiting.Exit]
    case Yield => steps == [Waiting.Yield]
    case Exit => steps == [Waiting.Exit]
    case Join(pid) => steps == [Waiting.Join(pid)]
    case SleepTicks(target) => steps == [Waiting.SleepTicks(target)]
    case Getchar => steps == [Waiting.Getchar]
    case SleepOn(chan) => steps == [Waiting.Sleep(chan)]
    case WakeOn(chan) => steps == [Waiting.Wakeup(chan)]
    case Tick => steps == [Waiting.Tick]
    case Receive(b) => steps == [Waiting.Receive(b)]
    case Reap(i) => steps == [Waiting.Reap(i)]
    case Dispatch => steps == [] || (|steps| == 1 && steps[0].Dispatch?)
    case _ => steps == []
  }

  // --- what a process sees ---

  /** A process to itself: the pages it can reach and its break. */
  datatype Space = Space(view: map<nat, Leaf>, brk: nat)

  ghost function SpaceAt(procs: Table, mem: Mem, j: nat): Space
    requires Live(procs, j)
  {
    var p := procs[j].value;
    Space(if p.userTable.Some? then View(mem, p.pageTable) else map[], p.heapBrk)
  }

  /** What an event tells the process that runs. */
  datatype Outcome =
    | Nothing | Access(out: DemandPaging.Out) | Break(from: nat)
    | Bytes(buf: Option<seq<nat>>) | Written(n: Option<nat>)

  /** The page is mapped with the right bits, or is below the break. */
  predicate Reaches(s: Space, va: nat, acc: Access)
  {
    if va / 4096 in s.view then UserAccess.PermAllows(s.view[va / 4096].perm, acc) else HEAP_BASE <= va < s.brk
  }

  ghost function Observes(e: Event, s: Space): Outcome
  {
    match e
    case Load(va) =>
      Access(if Reaches(s, va, Access.Load)
             then DemandPaging.Value(ByteAt(UserAccess.Faulted(s.view, va)[va / 4096].page, va % 4096))
             else DemandPaging.Killed)
    case Store(va, _) => Access(if Reaches(s, va, Access.Store) then DemandPaging.Stored else DemandPaging.Killed)
    case Sbrk(delta) => Break(if s.brk + delta <= HEAP_MAX then s.brk else USIZE_MAX)
    case CopyIn(ptr, len) =>
      Bytes(if UserCopy.Accepts(s.view, ptr, len, false)
            then Some(seq<nat>(len, i requires 0 <= i < len => UserCopy.ViewByte(s.view, ptr + i))) else None)
    case CopyOut(ptr, src) => Written(if UserCopy.Accepts(s.view, ptr, |src|, true) then Some(|src|) else None)
    case _ => Nothing
  }

  ghost function Effect(e: Event, s: Space): Space
  {
    match e
    case Load(va) => s.(view := UserAccess.Faulted(s.view, va))
    case Store(va, b) =>
      if b < 256 then s.(view := UserAccess.WithByte(UserAccess.Faulted(s.view, va), va, b)) else s
    case Sbrk(delta) => if s.brk + delta <= HEAP_MAX then s.(brk := s.brk + delta) else s
    case Exec(image) => Space(ImageView(image), HEAP_BASE)
    case CopyOut(ptr, src) =>
      if UserCopy.IsBytes(src) && UserCopy.Accepts(s.view, ptr, |src|, true)
      then s.(view := UserCopy.StoreAll(s.view, ptr, src)) else s
    case _ => s
  }

  /** The event did to the process in slot `c`, which ran, what its memory and its break say; or the process died. */
  ghost predicate Own(e: Event, out: Outcome, procs0: Table, mem0: Mem, c: nat, procs: Table, mem: Mem)
    requires Live(procs0, c)
  {
    && c < |procs| && procs[c].Some? && procs[c].value.pid == procs0[c].value.pid
    && (Live(procs, c) ==>
          var s := SpaceAt(procs0, mem0, c);
          out == Observes(e, s) && out != Access(DemandPaging.Killed) && SpaceAt(procs, mem, c) == Effect(e, s))
  }

  /** The event tells its process nothing and leaves its memory and break alone. */
  predicate Silent(e: Event)
  {
    !e.Load? && !e.Store? && !e.Sbrk? && !e.Exec? && !e.CopyIn? && !e.CopyOut?
  }

  lemma OwnSilent(e: Event, procs0: Table, mem0: Mem, c: nat, procs: Table, mem: Mem)
    requires Live(procs0, c) && Silent(e) && Kept(procs0, mem0, procs, mem, c)
    ensures Own(e, Nothing, procs0, mem0, c, procs, mem)
  {
    hide View;
  }

  // --- replaying one process ---

  /** An event that was handled: in which slot ran whom it was handled for, and what it told them. */
  datatype Entry = Entry(who: Option<nat>, event: Event, out: Outcome)

  /** The memory and break of a process after the events of slot `j` alone. */
  ghost function Replay(s: Space, log: seq<Entry>, j: nat): Space
  {
    if log == [] then s else
    var r, last := Replay(s, log[..|log| - 1], j), log[|log| - 1];
    if last.who == Some(j) then Effect(last.event, r) else r
  }

  /** Every event of slot `j` told its process what its own events alone explain. */
  ghost predicate Explained(s: Space, log: seq<Entry>, j: nat)
  {
    forall k :: 0 <= k < |log| && log[k].who == Some(j) ==>
      && log[k].out == Observes(log[k].event, Replay(s, log[..k], j))
      && log[k].out != Access(DemandPaging.Killed)
  }

  lemma ReplayOne(s: Space, log: seq<Entry>, j: nat, x: Entry)
    requires Explained(s, log, j)
    requires x.who == Some(j) ==>
               x.out == Observes(x.event, Replay(s, log, j)) && x.out != Access(DemandPaging.Killed)
    ensures Replay(s, log + [x], j) ==
              if x.who == Some(j) then Effect(x.event, Replay(s, log, j)) else Replay(s, log, j)
    ensures Explained(s, log + [x], j)
  {
    hide Effect, Observes;
    var log' := log + [x];
    assert log'[..|log|] == log;
    forall k | 0 <= k < |log'| && log'[k].who == Some(j)
      ensures log'[k].out == Observes(log'[k].event, Replay(s, log'[..k], j))
      ensures log'[k].out != Access(DemandPaging.Killed)
    {
      assert log'[..k] == log[..k];
    }
  }

  /** The process that was live in slot `j` at first still is, and is what its own events made it; or it is dead for
      good. */
  ghost predicate Survives(procs0: Table, mem0: Mem, log: seq<Entry>, procs: Table, mem: Mem, waits: Waiting.Kernel,
                           j: nat)
    requires Live(procs0, j)
  {
    || (&& Live(procs, j) && procs[j].value.pid == procs0[j].value.pid
        && var s := SpaceAt(procs0, mem0, j);
           SpaceAt(procs, mem, j) == Replay(s, log, j) && Explained(s, log, j))
    || Waiting.Gone(waits, procs0[j].value.pid)
  }

  ghost predicate Replayed(procs0: Table, mem0: Mem, log: seq<Entry>, procs: Table, mem: Mem, waits: Waiting.Kernel)
  {
    forall j: nat :: Live(procs0, j) ==> Survives(procs0, mem0, log, procs, mem, waits, j)
  }

  /** One more event, of whoever runs. */
  lemma SurvivesNext(procs0: Table, mem0: Mem, log: seq<Entry>, procs1: Table, mem1: Mem, waits1: Waiting.Kernel,
                     x: Entry, procs: Table, mem: Mem, waits: Waiting.Kernel, j: nat)
    requires Live(procs0, j) && Survives(procs0, mem0, log, procs1, mem1, waits1, j)
    requires Isolated(procs1, mem1, x.who, procs, mem)
    requires x.who.Some? ==> Live(procs1, x.who.value) && Own(x.event, x.out, procs1, mem1, x.who.value, procs, mem)
    requires Waiting.Gone(waits1, procs0[j].value.pid) ==> Waiting.Gone(waits, procs0[j].value.pid)
    requires j < |procs| && procs[j].Some? && !Live(procs, j) ==> Waiting.Gone(waits, procs[j].value.pid)
    ensures Survives(procs0, mem0, log + [x], procs, mem, waits, j)
  {
    hide View, Effect, Observes, Explained, Replay, Waiting.Gone;
    if !Waiting.Gone(waits1, procs0[j].value.pid) {
      var s := SpaceAt(procs0, mem0, j);
      if x.who == Some(j) {
        if Live(procs, j) {
          ReplayOne(s, log, j, x);
        }
      } else {
        assert Kept(procs1, mem1, procs, mem, j);
        ReplayOne(s, log, j, x);
      }
    }
  }

  lemma ReplayedFirst(procs: Table, mem: Mem, waits: Waiting.Kernel)
    ensures Replayed(procs, mem, [], procs, mem, waits)
  {
    hide View;
  }

  // --- which events were handled ---

  /** The log holds some of the events, in their order. */
  predicate Handled(log: seq<Entry>, events: seq<Event>)
    decreases |events|
  {
    if events == [] then log == [] else
    var n, last := |log| - 1, |events| - 1;
    || Handled(log, events[..last])
    || (log != [] && log[n].event == events[last] && Handled(log[..n], events[..last]))
  }

  lemma HandledFirst()
    ensures Handled([], [])
  {
  }

  lemma HandledMore(log: seq<Entry>, events: seq<Event>, x: Entry)
    requires Handled(log, events)
    ensures Handled(log + [x], events + [x.event])
  {
    assert (events + [x.event])[..|events|] == events && (log + [x])[..|log|] == log;
  }

  lemma HandledLess(log: seq<Entry>, events: seq<Event>, e: Event)
    requires Handled(log, events)
    ensures Handled(log, events + [e])
  {
    assert (events + [e])[..|events|] == events;
  }
}
