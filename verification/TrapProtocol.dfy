/**
 The sscratch protocol over every interleaving (src/kernelvec.S:8-13): user entry, traps from both modes, handlers
 that sleep and switch, exec, fork and exit, and stacks that are freed and used again.  Entry and exit decide as the
 code does, by sscratch and by the SPP bit of the frame they find in memory; the theorems say that both always decide
 right, and that a frame is still there when its thread comes back to it, whatever ran in between.
 */
module TrapProtocol {
  import opened TrapFrames
  import opened Traps

  /** `Leaving` is the window between loading sscratch and sret, which runs with interrupts off.  A zombie never runs
      again but still has its stack; once reaped it has none. */
  datatype Mode = User | Kernel | Leaving | Zombie | Gone

  /** A frame on a kernel stack: where it lies, and what was saved or what the handler made of it. */
  datatype Saved = Saved(at: nat, frame: TrapFrame)

  /** The kernel stack is [bottom, top), and `top` is kstack_top; `sp` is the kernel stack pointer, which means nothing
      in user mode. */
  datatype Thread = Thread(bottom: nat, top: nat, mode: Mode, sp: nat, frames: seq<Saved>)
  {
    /** The lowest address in use before the running kernel code. */
    function Floor(): nat { if frames == [] then top else frames[|frames| - 1].at }
    function Last(): Saved
      requires frames != []
    {
      frames[|frames| - 1]
    }
    predicate InStack(a: nat) { bottom <= a < top }
    predicate OnStack() { mode.Kernel? || mode.Zombie? }
  }

  datatype Machine = Machine(threads: seq<Thread>, current: nat, sscratch: nat, mem: Words)
  {
    predicate Ok() { current < |threads| }
    function Me(): Thread
      requires Ok()
    {
      threads[current]
    }
    function With(t: Thread): Machine
      requires Ok()
    {
      this.(threads := threads[current := t])
    }
  }

  datatype Step =
    | Trap(frame: TrapFrame, mem: Words)   // the interrupted state, and memory once it is saved
    | Move(sp: nat)                        // kernel code calls and returns
    | Write(at: nat, word: nat)            // the running code stores
    | Edit(frame: TrapFrame, mem: Words)   // the handler changes the frame it was given
    | Return(frame: TrapFrame)             // with the frame found at sp
    | Enter                                // enter_user or userret, also at the end of exec
    | Sret
    | Switch(to: nat)
    | Spawn(bottom: nat, top: nat)
    | Exit(to: nat)                        // exit, which switches away for good
    | Reap(thread: nat)                    // a zombie's stack goes back to the heap

  /** Where kernelvec puts the frame: below sscratch, or below sp if that is zero. */
  function Base(m: Machine): nat
    requires m.Ok()
  {
    if m.sscratch != 0 then m.sscratch else m.Me().sp
  }

  /** Code writes to no stack in use but its own, and there only below the frames; user code to none at all. */
  predicate MayWrite(m: Machine, a: nat)
    requires m.Ok()
  {
    && (forall t :: 0 <= t < |m.threads| && t != m.current && !m.threads[t].mode.Gone? ==> !m.threads[t].InStack(a))
    && (m.Me().InStack(a) ==> m.Me().mode.Kernel? && a < m.Me().Floor())
  }

  predicate Enabled(m: Machine, s: Step)
  {
    && m.Ok()
    && var me := m.Me();
    match s
    case Trap(f, mem) =>
      // the hardware records the mode in SPP; the kernel stack has room for one more frame
      && (me.mode.User? || me.mode.Kernel?) && f.Valid() && (f.FromUser() <==> me.mode.User?)
      && me.bottom + FRAME_SIZE <= Base(m)
      && (me.mode.Kernel? ==> f.Sp() == me.sp)
      && IsFrame(mem, Base(m) - FRAME_SIZE, f) && OnlyIn(m.mem, mem, Base(m) - FRAME_SIZE, Base(m))
    case Move(sp) => me.mode.Kernel? && me.bottom <= sp <= me.Floor()
    case Write(a, _) => MayWrite(m, a)
    case Edit(f, mem) =>
      && me.mode.Kernel? && me.frames != [] && f.Valid() && me.Last().frame.Valid()
      && (f.FromUser() <==> me.Last().frame.FromUser()) && (!f.FromUser() ==> f.Sp() == me.Last().frame.Sp())
      && IsFrame(mem, me.Last().at, f) && OnlyIn(m.mem, mem, me.Last().at, me.Last().at + FRAME_SIZE)
    case Return(f) => me.mode.Kernel? && me.frames != [] && me.sp == me.Last().at && IsFrame(m.mem, me.sp, f)
    case Enter => me.mode.Kernel?
    case Sret => me.mode.Leaving?
    case Switch(t) => me.mode.Kernel? && t < |m.threads| && m.threads[t].mode.Kernel?
    case Spawn(bottom, top) =>
      && me.mode.Kernel? && bottom + FRAME_SIZE <= top
      && forall t :: 0 <= t < |m.threads| && !m.threads[t].mode.Gone? ==> Apart(m.threads[t], bottom, top)
    case Exit(t) => me.mode.Kernel? && t < |m.threads| && t != m.current && m.threads[t].mode.Kernel?
    case Reap(t) => me.mode.Kernel? && t < |m.threads| && m.threads[t].mode.Zombie?
  }

  predicate Apart(t: Thread, bottom: nat, top: nat) { t.top <= bottom || top <= t.bottom }

  function Do(m: Machine, s: Step): Machine
    requires Enabled(m, s)
  {
    var me := m.Me();
    match s
    case Trap(f, mem) =>
      var at := Base(m) - FRAME_SIZE;
      m.(sscratch := 0, mem := mem).With(me.(mode := Kernel, sp := at, frames := me.frames + [Saved(at, f)]))
    case Move(sp) => m.With(me.(sp := sp))
    case Write(a, v) => m.(mem := m.mem[a := v])
    case Edit(f, mem) => m.(mem := mem).With(me.(frames := me.frames[|me.frames| - 1 := Saved(me.Last().at, f)]))
    case Return(f) =>
      var rest := me.frames[..|me.frames| - 1];
      if f.FromUser()
      then m.(sscratch := me.sp + FRAME_SIZE).With(me.(mode := Leaving, frames := rest))
      else m.With(me.(sp := f.Sp(), frames := rest))
    case Enter => m.(sscratch := me.top).With(me.(mode := Leaving, frames := []))
    case Sret => m.With(me.(mode := User))
    case Switch(t) => m.(current := t)
    case Spawn(bottom, top) => m.(threads := m.threads + [Thread(bottom, top, Kernel, top, [])])
    case Exit(t) => m.With(me.(mode := Zombie)).(current := t)
    case Reap(t) => m.(threads := m.threads[t := m.threads[t].(mode := Gone, frames := [])])
  }

  // --- the invariant ---

  /** The end of the stack that was in use when frame `i` was pushed. */
  function Above(t: Thread, i: nat): nat
    requires i < |t.frames|
  {
    if i == 0 then t.top else t.frames[i - 1].at
  }

  /** Only the outermost frame is from user mode, and it lies at the very top; every other lies below the stack pointer
      it interrupted, which is the one it holds, and below the frame before it. */
  predicate FrameOk(t: Thread, i: nat)
    requires i < |t.frames|
  {
    var s := t.frames[i];
    && s.frame.Valid() && t.bottom <= s.at && s.at + FRAME_SIZE <= Above(t, i)
    && if s.frame.FromUser() then i == 0 && s.at + FRAME_SIZE == t.top else s.frame.Sp() == s.at + FRAME_SIZE
  }

  predicate ThreadOk(t: Thread)
  {
    && t.bottom + FRAME_SIZE <= t.top
    && (forall i :: 0 <= i < |t.frames| ==> FrameOk(t, i))
    && (if t.OnStack() then t.bottom <= t.sp <= t.Floor() else t.frames == [])
  }

  /** Every frame of every thread is in memory as it was saved. */
  predicate FramesIn(mem: Words, t: Thread)
  {
    forall i :: 0 <= i < |t.frames| ==> IsFrame(mem, t.frames[i].at, t.frames[i].frame)
  }

  /** No two stacks in use overlap. */
  predicate StacksApart(ts: seq<Thread>)
  {
    forall i, j :: 0 <= i < j < |ts| && !ts[i].mode.Gone? && !ts[j].mode.Gone? ==>
      Apart(ts[i], ts[j].bottom, ts[j].top)
  }

  predicate Inv(m: Machine)
  {
    && m.Ok() && StacksApart(m.threads)
    && (forall t :: 0 <= t < |m.threads| ==> ThreadOk(m.threads[t]) && FramesIn(m.mem, m.threads[t]))
    && (forall t :: 0 <= t < |m.threads| && t != m.current ==> !m.threads[t].mode.User? && !m.threads[t].mode.Leaving?)
    && !m.Me().mode.Zombie? && !m.Me().mode.Gone?
    && m.sscratch == if m.Me().mode.Kernel? then 0 else m.Me().top
  }

  // --- frames stay in memory ---

  lemma {:induction false} Descending(t: Thread, i: nat)
    requires ThreadOk(t) && i < |t.frames|
    ensures t.Floor() <= t.frames[i].at && t.frames[i].at + FRAME_SIZE <= t.top
  {
    Lower(t, i);
    Higher(t, i);
  }

  lemma {:induction false} Lower(t: Thread, i: nat)
    requires ThreadOk(t) && i < |t.frames|
    ensures t.Floor() <= t.frames[i].at
    decreases |t.frames| - i
  {
    if i + 1 < |t.frames| {
      assert FrameOk(t, i + 1);
      Lower(t, i + 1);
    }
  }

  lemma {:induction false} Higher(t: Thread, i: nat)
    requires ThreadOk(t) && i < |t.frames|
    ensures t.frames[i].at + FRAME_SIZE <= t.top
  {
    assert FrameOk(t, i);
    if i > 0 {
      Higher(t, i - 1);
    }
  }

  lemma FrameKept(mem: Words, mem': Words, p: nat, f: TrapFrame)
    requires IsFrame(mem, p, f) && forall a :: p <= a < p + FRAME_SIZE && a in mem ==> a in mem' && mem'[a] == mem[a]
    ensures IsFrame(mem', p, f)
  {
    assert Slot(p, 31) == p + 248 && Slot(p, 32) == p + 256;
    forall i: nat | i < 31 ensures Slot(p, i) in mem' && mem'[Slot(p, i)] == f.x[i] {
      assert p <= Slot(p, i) < p + FRAME_SIZE;
    }
  }

  /** A write below a thread's frames, or outside its stack, leaves its frames alone. */
  lemma FramesKept(mem: Words, mem': Words, t: Thread)
    requires ThreadOk(t) && FramesIn(mem, t)
    requires forall a :: t.Floor() <= a < t.top && a in mem ==> a in mem' && mem'[a] == mem[a]
    ensures FramesIn(mem', t)
  {
    forall i | 0 <= i < |t.frames| ensures IsFrame(mem', t.frames[i].at, t.frames[i].frame) {
      Descending(t, i);
      FrameKept(mem, mem', t.frames[i].at, t.frames[i].frame);
    }
  }

  lemma FrameUnique(mem: Words, p: nat, f: TrapFrame, g: TrapFrame)
    requires IsFrame(mem, p, f) && IsFrame(mem, p, g)
    ensures f == g
  {
    forall i | 0 <= i < 31 ensures f.x[i] == g.x[i] {
      var n: nat := i;
      assert Slot(p, n) in mem;
    }
  }

  /** The other threads keep their frames when the running one changes memory only in its own stack. */
  lemma OthersKept(m: Machine, mem': Words, lo: nat, hi: nat, t: nat)
    requires Inv(m) && t < |m.threads| && t != m.current
    requires m.Me().bottom <= lo && hi <= m.Me().top && OnlyIn(m.mem, mem', lo, hi)
    ensures FramesIn(mem', m.threads[t])
  {
    var u := m.threads[t];
    assert ThreadOk(u);
    if u.mode.Gone? {
      return;
    }
    assert if t < m.current then Apart(u, m.Me().bottom, m.Me().top) else Apart(m.Me(), u.bottom, u.top);
    Bottom(u);
    FramesKept(m.mem, mem', u);
  }

  lemma Bottom(t: Thread)
    requires ThreadOk(t)
    ensures t.bottom <= t.Floor() <= t.top
  {
    if t.frames != [] {
      assert FrameOk(t, |t.frames| - 1);
      Descending(t, |t.frames| - 1);
    }
  }

  // --- every step ---

  lemma PushOk(t: Thread, at: nat, f: TrapFrame)
    requires ThreadOk(t) && f.Valid() && t.bottom <= at && at + FRAME_SIZE <= t.Floor()
    requires if f.FromUser() then t.frames == [] && at + FRAME_SIZE == t.top else f.Sp() == at + FRAME_SIZE
    ensures ThreadOk(t.(mode := Kernel, sp := at, frames := t.frames + [Saved(at, f)]))
  {
    var t' := t.(mode := Kernel, sp := at, frames := t.frames + [Saved(at, f)]);
    forall i | 0 <= i < |t'.frames| ensures FrameOk(t', i) {
      if i < |t.frames| {
        assert FrameOk(t, i);
      }
    }
  }

  lemma PopOk(t: Thread, mode: Mode, sp: nat)
    requires ThreadOk(t) && t.mode.Kernel? && t.frames != [] && t.bottom <= sp
    requires if mode.Kernel? then sp <= Above(t, |t.frames| - 1) else !mode.Zombie? && |t.frames| == 1
    ensures ThreadOk(t.(mode := mode, sp := sp, frames := t.frames[..|t.frames| - 1]))
  {
    var t' := t.(mode := mode, sp := sp, frames := t.frames[..|t.frames| - 1]);
    forall i | 0 <= i < |t'.frames| ensures FrameOk(t', i) {
      assert FrameOk(t, i);
    }
  }

  lemma EditOk(t: Thread, f: TrapFrame)
    requires ThreadOk(t) && t.mode.Kernel? && t.frames != [] && f.Valid() && t.Last().frame.Valid()
    requires (f.FromUser() <==> t.Last().frame.FromUser()) && (!f.FromUser() ==> f.Sp() == t.Last().frame.Sp())
    ensures ThreadOk(t.(frames := t.frames[|t.frames| - 1 := Saved(t.Last().at, f)]))
  {
    var t' := t.(frames := t.frames[|t.frames| - 1 := Saved(t.Last().at, f)]);
    forall i | 0 <= i < |t'.frames| ensures FrameOk(t', i) {
      assert FrameOk(t, i);
    }
  }

  lemma MoveOk(t: Thread, mode: Mode, sp: nat)
    requires ThreadOk(t) && if mode.Kernel? || mode.Zombie? then t.bottom <= sp <= t.Floor() else t.frames == []
    ensures ThreadOk(t.(mode := mode, sp := sp))
  {
    var t' := t.(mode := mode, sp := sp);
    forall i | 0 <= i < |t'.frames| ensures FrameOk(t', i) {
      assert FrameOk(t, i);
    }
  }

  /** The running thread moves on, on its own stack; the others keep theirs. */
  lemma WithInv(m: Machine, t': Thread, sscratch': nat, mem': Words)
    requires Inv(m) && t'.bottom == m.Me().bottom && t'.top == m.Me().top && ThreadOk(t') && FramesIn(mem', t')
    requires forall t :: 0 <= t < |m.threads| && t != m.current ==> FramesIn(mem', m.threads[t])
    requires sscratch' == (if t'.mode.Kernel? then 0 else t'.top) && !t'.mode.Zombie? && !t'.mode.Gone?
    ensures Inv(Machine(m.threads[m.current := t'], m.current, sscratch', mem'))
  {
    hide ThreadOk, FramesIn;
  }

  /** Saving a frame overwrites none. */
  lemma TrapKeeps(m: Machine, f: TrapFrame, mem': Words)
    requires Inv(m) && Enabled(m, Trap(f, mem'))
    ensures forall t :: 0 <= t < |m.threads| ==> FramesIn(mem', m.threads[t])
  {
    var me, at := m.Me(), Base(m) - FRAME_SIZE;
    assert ThreadOk(me) && FramesIn(m.mem, me);
    Bottom(me);
    FramesKept(m.mem, mem', me);
    forall t | 0 <= t < |m.threads| && t != m.current ensures FramesIn(mem', m.threads[t]) {
      OthersKept(m, mem', at, Base(m), t);
    }
  }

  lemma TrapInv(m: Machine, f: TrapFrame, mem': Words)
    requires Inv(m) && Enabled(m, Trap(f, mem'))
    ensures Inv(Do(m, Trap(f, mem')))
  {
    var me, at := m.Me(), Base(m) - FRAME_SIZE;
    assert ThreadOk(me) && FramesIn(m.mem, me);
    Bottom(me);
    PushOk(me, at, f);
    TrapKeeps(m, f, mem');
    var t' := me.(mode := Kernel, sp := at, frames := me.frames + [Saved(at, f)]);
    assert FramesIn(mem', t');
    WithInv(m, t', 0, mem');
  }

  lemma EditInv(m: Machine, f: TrapFrame, mem': Words)
    requires Inv(m) && Enabled(m, Edit(f, mem'))
    ensures Inv(Do(m, Edit(f, mem')))
  {
    var me := m.Me();
    var n, at := |me.frames| - 1, me.Last().at;
    assert ThreadOk(me) && FramesIn(m.mem, me) && FrameOk(me, n);
    Descending(me, n);
    EditOk(me, f);
    var t' := me.(frames := me.frames[n := Saved(at, f)]);
    forall i | 0 <= i < n ensures IsFrame(mem', me.frames[i].at, me.frames[i].frame) {
      BeforeLast(me, i);
      FrameKept(m.mem, mem', me.frames[i].at, me.frames[i].frame);
    }
    assert FramesIn(mem', t');
    forall t | 0 <= t < |m.threads| && t != m.current ensures FramesIn(mem', m.threads[t]) {
      OthersKept(m, mem', at, at + FRAME_SIZE, t);
    }
    WithInv(m, t', m.sscratch, mem');
  }

  /** Earlier frames lie above the last one. */
  lemma {:induction false} BeforeLast(t: Thread, i: nat)
    requires ThreadOk(t) && i + 1 < |t.frames|
    ensures t.Floor() + FRAME_SIZE <= t.frames[i].at
  {
    assert FrameOk(t, i + 1);
    Lower(t, i + 1);
  }

  lemma WriteInv(m: Machine, a: nat, v: nat)
    requires Inv(m) && Enabled(m, Write(a, v))
    ensures Inv(Do(m, Write(a, v)))
  {
    var mem' := m.mem[a := v];
    forall t | 0 <= t < |m.threads| ensures FramesIn(mem', m.threads[t]) {
      assert ThreadOk(m.threads[t]) && FramesIn(m.mem, m.threads[t]);
      if !m.threads[t].mode.Gone? {
        Bottom(m.threads[t]);
        FramesKept(m.mem, mem', m.threads[t]);
      }
    }
    hide ThreadOk, FramesIn;
  }

  lemma ReturnInv(m: Machine, f: TrapFrame)
    requires Inv(m) && Enabled(m, Return(f))
    ensures Inv(Do(m, Return(f))) && f == m.Me().Last().frame
  {
    var me := m.Me();
    var n := |me.frames| - 1;
    assert ThreadOk(me) && FramesIn(m.mem, me) && FrameOk(me, n);
    FrameUnique(m.mem, me.sp, f, me.Last().frame);
    if f.FromUser() {
      PopOk(me, Leaving, me.sp);
      WithInv(m, me.(mode := Leaving, frames := me.frames[..n]), me.top, m.mem);
    } else {
      PopOk(me, Kernel, f.Sp());
      WithInv(m, me.(sp := f.Sp(), frames := me.frames[..n]), 0, m.mem);
    }
  }

  lemma SpawnInv(m: Machine, bottom: nat, top: nat)
    requires Inv(m) && Enabled(m, Spawn(bottom, top))
    ensures Inv(Do(m, Spawn(bottom, top)))
  {
    hide IsFrame;
    var t := Thread(bottom, top, Kernel, top, []);
    assert ThreadOk(t) && FramesIn(m.mem, t);
    hide ThreadOk, FramesIn;
  }

  lemma ExitInv(m: Machine, to: nat)
    requires Inv(m) && Enabled(m, Exit(to))
    ensures Inv(Do(m, Exit(to)))
  {
    var me := m.Me();
    assert ThreadOk(me) && FramesIn(m.mem, me);
    MoveOk(me, Zombie, me.sp);
    assert FramesIn(m.mem, me.(mode := Zombie));
    hide ThreadOk, FramesIn;
  }

  lemma ReapInv(m: Machine, t: nat)
    requires Inv(m) && Enabled(m, Reap(t))
    ensures Inv(Do(m, Reap(t)))
  {
    var t' := m.threads[t].(mode := Gone, frames := []);
    assert ThreadOk(m.threads[t]) && ThreadOk(t') && FramesIn(m.mem, t');
    hide ThreadOk, FramesIn;
  }

  /** Once a zombie is reaped, anyone may write to what was its stack, and it may be the stack of a new thread. */
  lemma StackReused(m: Machine, t: nat, a: nat, v: nat)
    requires Inv(m) && Enabled(m, Reap(t)) && m.threads[t].InStack(a)
    ensures
      var m', u := Do(m, Reap(t)), m.threads[t];
      Enabled(m', Write(a, v)) && Enabled(m', Spawn(u.bottom, u.top))
  {
    assert ThreadOk(m.threads[t]);
    hide ThreadOk, FramesIn;
    forall i | 0 <= i < |m.threads| && i != t && !m.threads[i].mode.Gone?
      ensures Apart(m.threads[i], m.threads[t].bottom, m.threads[t].top) && !m.threads[i].InStack(a)
    {
      assert if i < t then Apart(m.threads[i], m.threads[t].bottom, m.threads[t].top)
             else Apart(m.threads[t], m.threads[i].bottom, m.threads[i].top);
    }
  }

  lemma StepInv(m: Machine, s: Step)
    requires Inv(m) && Enabled(m, s)
    ensures Inv(Do(m, s))
  {
    var me := m.Me();
    assert ThreadOk(me) && FramesIn(m.mem, me);
    match s
    case Trap(f, mem) => TrapInv(m, f, mem);
    case Return(f) => ReturnInv(m, f);
    case Edit(f, mem) => EditInv(m, f, mem);
    case Write(a, v) => WriteInv(m, a, v);
    case Move(sp) =>
      MoveOk(me, Kernel, sp);
      WithInv(m, me.(sp := sp), 0, m.mem);
    case Sret =>
      MoveOk(me, User, me.sp);
      WithInv(m, me.(mode := User), me.top, m.mem);
    case Enter =>
      WithInv(m, me.(mode := Leaving, frames := []), me.top, m.mem);
    case Switch(_) =>
    case Spawn(b, t) => SpawnInv(m, b, t);
    case Exit(t) => ExitInv(m, t);
    case Reap(t) => ReapInv(m, t);
  }

  // --- every run ---

  predicate Runs(m: Machine, steps: seq<Step>)
    decreases |steps|
  {
    steps == [] || (Enabled(m, steps[0]) && Runs(Do(m, steps[0]), steps[1..]))
  }

  function After(m: Machine, steps: seq<Step>): Machine
    requires Runs(m, steps)
    decreases |steps|
  {
    if steps == [] then m else After(Do(m, steps[0]), steps[1..])
  }

  lemma {:induction false} RunInv(m: Machine, steps: seq<Step>)
    requires Inv(m) && Runs(m, steps)
    ensures Inv(After(m, steps))
    decreases |steps|
  {
    hide Inv, Enabled, Do;
    if steps != [] {
      StepInv(m, steps[0]);
      RunInv(Do(m, steps[0]), steps[1..]);
    }
  }

  /** trap::init on the boot stack. */
  predicate IsBoot(m: Machine)
  {
    && m.current == 0 && m.sscratch == 0 && |m.threads| == 1
    && var t := m.threads[0]; t.bottom + FRAME_SIZE <= t.top && t == Thread(t.bottom, t.top, Kernel, t.top, [])
  }

  ghost predicate Reachable(m: Machine)
  {
    exists boot, steps :: IsBoot(boot) && Runs(boot, steps) && m == After(boot, steps)
  }

  lemma ReachableInv(m: Machine)
    requires Reachable(m)
    ensures Inv(m)
  {
    var boot, steps :| IsBoot(boot) && Runs(boot, steps) && m == After(boot, steps);
    RunInv(boot, steps);
  }

  /** sscratch is nonzero exactly in user mode and in the window before sret, and is then the running process's own
      trap stack. */
  lemma ScratchMeansUser(m: Machine)
    requires Reachable(m)
    ensures m.Ok() && (m.sscratch != 0 <==> !m.Me().mode.Kernel?) && (m.sscratch != 0 ==> m.sscratch == m.Me().top)
  {
    ReachableInv(m);
    assert ThreadOk(m.Me());
  }

  /** Every trap from user mode saves its frame at the top of the running process's own kernel stack; every trap from
      the kernel saves it right below the interrupted sp, and below every frame already there.  No frame of any thread
      is overwritten. */
  lemma TrapPlace(m: Machine, f: TrapFrame, mem: Words)
    requires Reachable(m) && Enabled(m, Trap(f, mem))
    ensures
      var me, s := m.Me(), Do(m, Trap(f, mem)).Me().Last();
      && s.frame == f
      && (me.mode.User? ==> s.at + FRAME_SIZE == me.top && me.frames == [])
      && (me.mode.Kernel? ==>
            s.at + FRAME_SIZE == me.sp && forall i :: 0 <= i < |me.frames| ==> s.at + FRAME_SIZE <= me.frames[i].at)
    ensures IsFrame(mem, Do(m, Trap(f, mem)).Me().sp, f)
    ensures forall t :: 0 <= t < |m.threads| ==> FramesIn(mem, m.threads[t])
  {
    ReachableInv(m);
    var me := m.Me();
    assert ThreadOk(me);
    if me.mode.Kernel? {
      forall i | 0 <= i < |me.frames| ensures me.sp <= me.frames[i].at {
        Descending(me, i);
      }
    }
    TrapKeeps(m, f, mem);
  }

  /** A return finds in memory the very frame that was saved or edited last; to user mode it re-arms sscratch with the
      process's own trap stack, and only when nothing is left on it; to the kernel it gives back the interrupted sp. */
  lemma ReturnPlace(m: Machine, f: TrapFrame)
    requires Reachable(m) && Enabled(m, Return(f))
    ensures f == m.Me().Last().frame
    ensures
      var me, m' := m.Me(), Do(m, Return(f));
      if f.FromUser()
      then m'.sscratch == me.top && m'.Me().frames == []
      else m'.sscratch == 0 && m'.Me().sp == me.Last().at + FRAME_SIZE
  {
    ReachableInv(m);
    ReturnInv(m, f);
    assert ThreadOk(m.Me()) && FrameOk(m.Me(), |m.Me().frames| - 1);
  }

  /** While a thread waits off the hart its frames do not change, in the record or in memory, whoever runs, exits, is
      reaped or gets a stack meanwhile. */
  lemma {:induction false} FramesSurvive(m: Machine, steps: seq<Step>, t: nat)
    requires Inv(m) && Runs(m, steps) && t < |m.threads| && m.threads[t].mode.Kernel? && NeverRuns(m, steps, t)
    ensures
      var m' := After(m, steps);
      && t < |m'.threads| && m'.threads[t] == m.threads[t]
      && forall i :: 0 <= i < |m.threads[t].frames| ==>
           IsFrame(m'.mem, m.threads[t].frames[i].at, m.threads[t].frames[i].frame)
    decreases |steps|
  {
    if steps == [] {
      assert FramesIn(m.mem, m.threads[t]);
    } else {
      StepInv(m, steps[0]);
      StepElsewhere(m, steps[0], t);
      hide Inv, Enabled, Do;
      FramesSurvive(Do(m, steps[0]), steps[1..], t);
    }
  }

  lemma StepElsewhere(m: Machine, s: Step, t: nat)
    requires Enabled(m, s) && t < |m.threads| && t != m.current && m.threads[t].mode.Kernel?
    ensures t < |Do(m, s).threads| && Do(m, s).threads[t] == m.threads[t]
  {
  }

  /** Thread `t` takes none of these steps. */
  predicate NeverRuns(m: Machine, steps: seq<Step>, t: nat)
    requires Runs(m, steps)
    decreases |steps|
  {
    steps == [] || (m.current != t && NeverRuns(Do(m, steps[0]), steps[1..], t))
  }

  // --- from a trap to its return ---

  /** Thread `t` keeps more than `n` frames through the run, and nobody edits frame `n`. */
  predicate KeepsFrame(m: Machine, steps: seq<Step>, t: nat, n: nat)
    requires Runs(m, steps)
    decreases |steps|
  {
    && t < |m.threads| && n < |m.threads[t].frames|
    && (steps == [] ||
        (&& !(steps[0].Edit? && m.current == t && |m.threads[t].frames| == n + 1)
         && KeepsFrame(Do(m, steps[0]), steps[1..], t, n)))
  }

  lemma FrameStays(m: Machine, s: Step, t: nat, n: nat)
    requires Enabled(m, s) && t < |m.threads| && n < |m.threads[t].frames|
    requires t < |Do(m, s).threads| && n < |Do(m, s).threads[t].frames|
    requires !(s.Edit? && m.current == t && |m.threads[t].frames| == n + 1)
    ensures Do(m, s).threads[t].frames[n] == m.threads[t].frames[n]
  {
  }

  lemma {:induction false} FrameStaysRun(m: Machine, steps: seq<Step>, t: nat, n: nat)
    requires Runs(m, steps) && KeepsFrame(m, steps, t, n)
    ensures
      var m' := After(m, steps);
      t < |m'.threads| && n < |m'.threads[t].frames| && m'.threads[t].frames[n] == m.threads[t].frames[n]
    decreases |steps|
  {
    hide Enabled, Do;
    if steps != [] {
      var m' := Do(m, steps[0]);
      assert KeepsFrame(m', steps[1..], t, n);
      FrameStays(m, steps[0], t, n);
      FrameStaysRun(m', steps[1..], t, n);
    }
  }

  /** Over whole runs: code is interrupted in state `f`, anything happens on any stack, and when the handler that left
      the frame alone returns, it is to exactly that state. */
  lemma TrapReturns(m: Machine, f: TrapFrame, mem: Words, steps: seq<Step>, f': TrapFrame)
    requires Reachable(m) && Enabled(m, Trap(f, mem)) && Runs(Do(m, Trap(f, mem)), steps)
    requires KeepsFrame(Do(m, Trap(f, mem)), steps, m.current, |m.Me().frames|)
    requires
      var g := After(Do(m, Trap(f, mem)), steps);
      g.current == m.current && Enabled(g, Return(f')) && |g.Me().frames| == |m.Me().frames| + 1
    ensures f' == f
  {
    var n, m1 := |m.Me().frames|, Do(m, Trap(f, mem));
    assert m1.threads[m.current].frames[n].frame == f;
    ReachableInv(m);
    StepInv(m, Trap(f, mem));
    FrameStaysRun(m1, steps, m.current, n);
    RunInv(m1, steps);
    ReturnInv(After(m1, steps), f');
  }

  // --- the instructions take these steps ---

  /** The registers, CSRs and memory of the hart are those of the machine. */
  ghost predicate Represents(h: Hart, m: Machine)
    reads h
  {
    h.Valid() && m.Ok() && h.sscratch == m.sscratch && h.mem == m.mem && (m.Me().mode.Kernel? ==> h.x[SP] == m.Me().sp)
  }

  /** kernelvec up to the call of the handler is a Trap step with the interrupted state. */
  method TakeTrap(h: Hart, ghost m: Machine) returns (ghost m': Machine)
    requires Inv(m) && Represents(h, m) && !m.Me().mode.Leaving? && m.Me().bottom + FRAME_SIZE <= Base(m)
    requires TrapFrame(h.x, h.sepc, h.sstatus).FromUser() <==> m.Me().mode.User?
    modifies h
    ensures
      var s := Trap(TrapFrame(old(h.x), old(h.sepc), old(h.sstatus)), h.mem);
      Enabled(m, s) && m' == Do(m, s) && Represents(h, m')
  {
    assert ThreadOk(m.Me());
    ghost var f := TrapFrame(h.x, h.sepc, h.sstatus);
    h.Enter();
    m' := Do(m, Trap(f, h.mem));
  }

  /** kernelvec after the handler is a Return step: the interrupted code gets the frame of its own trap back. */
  method LeaveTrap(h: Hart, ghost m: Machine) returns (ghost m': Machine)
    requires Inv(m) && Represents(h, m) && m.Me().mode.Kernel? && m.Me().frames != [] && m.Me().sp == m.Me().Last().at
    modifies h
    ensures
      var f := m.Me().Last().frame;
      && Enabled(m, Return(f)) && m' == Do(m, Return(f)) && Represents(h, m')
      && h.x == f.x && h.sepc == f.sepc && h.sstatus == f.sstatus
  {
    assert ThreadOk(m.Me()) && FramesIn(m.mem, m.Me());
    ghost var f := m.Me().Last().frame;
    h.Leave(f);
    m' := Do(m, Return(f));
  }

  /** enter_user is an Enter step. */
  method StartUser(h: Hart, ghost m: Machine, entry: nat, userSp: nat, kstackTop: nat) returns (ghost m': Machine)
    requires Inv(m) && Represents(h, m) && m.Me().mode.Kernel? && kstackTop == m.Me().top
    modifies h
    ensures Enabled(m, Enter) && m' == Do(m, Enter) && Represents(h, m') && h.sepc == entry && h.x[SP] == userSp
  {
    h.EnterUser(entry, userSp, kstackTop);
    m' := Do(m, Enter);
  }

  /** userret is an Enter step, with every register from the child's frame. */
  method StartChild(h: Hart, ghost m: Machine, ghost f: TrapFrame) returns (ghost m': Machine)
    requires Inv(m) && Represents(h, m) && m.Me().mode.Kernel? && IsFrame(h.mem, h.x[A0], f) && h.x[A1] == m.Me().top
    modifies h
    ensures Enabled(m, Enter) && m' == Do(m, Enter) && Represents(h, m')
    ensures h.x == f.x && h.sepc == f.sepc && h.sstatus == f.sstatus
  {
    h.UserRet(f);
    m' := Do(m, Enter);
  }
}
