/**
 Interrupt nesting on the one hart (src/spinlock.rs) across context switches (src/proc.rs:353-387,
 src/proc.rs:620-681).  NOFF and INTENA are shared cells that every thread overwrites; the theorems say
 that each thread nevertheless sees them as its own.

 The machine steps through what code can do to the interrupt state: push_off and pop_off, taking and
 dropping a spinlock, turning interrupts on or off at depth zero, trapping and returning from a trap,
 entering user mode, and switching between the scheduler and a thread.
 */
module Interrupts {
  import opened Options

  /** What a trap saved: the SIE bit, and whether it came from user mode. */
  datatype Frame = Frame(sie: bool, user: bool)

  /** One stack of execution: the scheduler's or a thread's.
      `plain` counts its bare push_off levels and `held` its spinlocks, which are a level each.
      `saw` is the SIE bit its outermost push_off found; the program does not keep it.
      `saved` is the local in which sched() keeps INTENA while the thread is off the hart. */
  datatype Context = Context(plain: nat, held: set<nat>, saw: Option<bool>, traps: seq<Frame>, user: bool, saved: bool)
  {
    function Depth(): nat { plain + |held| }
    /** A new thread, before the pop_off in thread_entry: it holds the level the scheduler pushed. */
    predicate Fresh() { this == FRESH }
    predicate Handler() { traps != [] && !user }
  }

  const FRESH := Context(1, {}, None, [], false, false)

  /** `current` is None on the scheduler's own stack.
      `back` is what the outermost push_off of the thread that last switched back to the scheduler saw,
      if one has since the scheduler's own outermost push_off. */
  datatype Hart = Hart(
    sie: bool, noff: nat, intena: bool, locked: set<nat>,
    current: Option<nat>, scheduler: Context, threads: seq<Context>, back: Option<bool>)
  {
    predicate Ok() { current.Some? ==> current.value < |threads| }

    function Me(): Context
      requires Ok()
    {
      if current.Some? then threads[current.value] else scheduler
    }

    function With(c: Context): Hart
      requires Ok()
    {
      if current.Some? then this.(threads := threads[current.value := c]) else this.(scheduler := c)
    }
  }

  datatype Step =
    | PushOff | PopOff | Lock(l: nat) | Unlock(l: nat)
    | IntrOn | IntrOff
    | Trap | Sret | EnterUser
    | Spawn | Dispatch(t: nat) | Sched

  // --- the operations of src/spinlock.rs ---

  function Pushed(h: Hart): Hart
    requires h.Ok()
  {
    var me := h.Me();
    var h' := h.(sie := false, noff := h.noff + 1, intena := if h.noff == 0 then h.sie else h.intena);
    h'.With(if me.Depth() == 0 then me.(saw := Some(h.sie)) else me)
  }

  function Popped(h: Hart, c: Context): Hart
    requires h.Ok() && h.noff > 0
  {
    var h' := h.(noff := h.noff - 1, sie := h.sie || (h.noff == 1 && h.intena));
    h'.With(if c.Depth() == 0 then c.(saw := None) else c)
  }

  /** What the code on the hart may do next. */
  predicate Enabled(h: Hart, step: Step)
  {
    && h.Ok()
    && var me := h.Me();
    if me.user then step.Trap?
    else if me.Fresh() then step.PopOff? && h.noff > 0
    else
      match step
      case PushOff => true
      case PopOff => me.plain > 0 && h.noff > 0
      case Lock(l) => l !in me.held
      case Unlock(l) => l in me.held && h.noff > 0
      case IntrOn => me.Depth() == 0 && me.traps == []
      case IntrOff => me.Depth() == 0
      case Trap => h.sie
      case Sret => me.Depth() == 0 && me.traps != []
      case EnterUser => h.current.Some? && me.Depth() == 0
      case Spawn => true
      case Dispatch(t) => h.current.None? && me.plain == 1 && me.held == {} && me.traps == [] && t < |h.threads|
      case Sched => h.current.Some? && me.plain == 1 && h.noff == 1
  }

  function Do(h: Hart, step: Step): Hart
    requires Enabled(h, step)
  {
    var me := h.Me();
    match step
    case PushOff =>
      var h' := Pushed(h);
      h'.With(h'.Me().(plain := me.plain + 1)).(back := if h.current.None? && me.Depth() == 0 then None else h.back)
    case PopOff => Popped(h, me.(plain := me.plain - 1))
    case Lock(l) =>
      var h' := Pushed(h);
      var back := if h.current.None? && me.Depth() == 0 then None else h.back;
      h'.With(h'.Me().(held := me.held + {l})).(locked := h.locked + {l}, back := back)
    case Unlock(l) => Popped(h, me.(held := me.held - {l})).(locked := h.locked - {l})
    case IntrOn => h.(sie := true)
    case IntrOff => h.(sie := false)
    case Trap => h.(sie := false).With(me.(traps := me.traps + [Frame(h.sie, me.user)], user := false))
    case Sret =>
      var f := me.traps[|me.traps| - 1];
      h.(sie := f.sie).With(me.(traps := me.traps[..|me.traps| - 1], user := f.user))
    case EnterUser => h.(sie := true).With(me.(traps := [], user := true))   // exec abandons the trap it is in
    case Spawn => h.(threads := h.threads + [FRESH])
    case Dispatch(t) =>
      // swtch, and then the set_intena that follows it in sched(); a new thread starts in thread_entry instead
      h.(current := Some(t), intena := if h.threads[t].Fresh() then h.intena else h.threads[t].saved)
    case Sched => h.(threads := h.threads[h.current.value := me.(saved := h.intena)], current := None, back := me.saw)
  }

  // --- the invariant ---

  /** A thread off the hart holds exactly the one level it gave the hart up with, and no lock. */
  predicate Parked(c: Context)
  {
    c.plain == 1 && c.held == {} && !c.user && (c.Fresh() || c.saw == Some(c.saved)) && TrapsOk(c)
  }

  /** Inside a handler every outermost push_off finds interrupts off. */
  predicate TrapsOk(c: Context)
  {
    && (c.traps != [] && !c.user ==> c.saw != Some(true))
    && |c.traps| <= (if c.user then 0 else 1)
  }

  /** The context on the hart agrees with the shared cells. */
  predicate Here(h: Hart)
    requires h.Ok()
  {
    var me := h.Me();
    && h.noff == me.Depth() && (h.noff > 0 ==> !h.sie) && (me.user ==> h.noff == 0)
    && h.locked == me.held
    && (me.Fresh() || (me.saw.Some? <==> me.Depth() > 0))
    && TrapsOk(me) && (me.Handler() ==> !h.sie)
    && (h.current.None? && h.back.Some? && me.Depth() > 0 ==> me.traps == [])
    && (me.saw.Some? ==> h.intena == if h.current.None? && h.back.Some? then h.back.value else me.saw.value)
  }

  /** The scheduler never runs in user mode. */
  predicate SchedulerOk(c: Context)
  {
    !c.Fresh() && !c.user && forall i :: 0 <= i < |c.traps| ==> !c.traps[i].user
  }

  /** The contexts off the hart hold one level each. */
  predicate Away(h: Hart)
  {
    && SchedulerOk(h.scheduler)
    && (h.current.Some? ==>
          h.scheduler.plain == 1 && h.scheduler.held == {} && h.scheduler.traps == [] && h.scheduler.saw.Some?)
    && forall t :: 0 <= t < |h.threads| && h.current != Some(t) ==> Parked(h.threads[t])
  }

  predicate Inv(h: Hart) { h.Ok() && Here(h) && Away(h) }

  lemma AwayKept(h: Hart, h': Hart)
    requires Inv(h) && h'.Ok() && h'.current == h.current && |h.threads| == |h'.threads|
    requires forall t :: 0 <= t < |h.threads| && h.current != Some(t) ==> h'.threads[t] == h.threads[t]
    requires h.current.Some? ==> h'.scheduler == h.scheduler
    requires h.current.None? ==> SchedulerOk(h'.scheduler)
    ensures Away(h')
  {
  }

  lemma PushInv(h: Hart, step: Step)
    requires Inv(h) && Enabled(h, step) && (step.PushOff? || step.Lock?)
    ensures Inv(Do(h, step))
  {
    PushAway(h, step);
    hide Away, Parked;
  }

  lemma PushAway(h: Hart, step: Step)
    requires Inv(h) && Enabled(h, step) && (step.PushOff? || step.Lock?)
    ensures Do(h, step).Ok() && Away(Do(h, step))
  {
    AwayKept(h, Do(h, step));
  }

  lemma PopInv(h: Hart, step: Step)
    requires Inv(h) && Enabled(h, step) && (step.PopOff? || step.Unlock?)
    ensures Inv(Do(h, step))
  {
    AwayKept(h, Do(h, step));
  }

  lemma TrapInv(h: Hart, step: Step)
    requires Inv(h) && Enabled(h, step)
    requires step.IntrOn? || step.IntrOff? || step.Trap? || step.Sret? || step.EnterUser?
    ensures Inv(Do(h, step))
  {
    AwayKept(h, Do(h, step));
  }

  lemma SwitchInv(h: Hart, step: Step)
    requires Inv(h) && Enabled(h, step) && (step.Spawn? || step.Dispatch? || step.Sched?)
    ensures Inv(Do(h, step))
  {
  }

  lemma StepInv(h: Hart, step: Step)
    requires Inv(h) && Enabled(h, step)
    ensures Inv(Do(h, step))
  {
    match step
    case PushOff => PushInv(h, step);
    case Lock(_) => PushInv(h, step);
    case PopOff => PopInv(h, step);
    case Unlock(_) => PopInv(h, step);
    case Spawn => SwitchInv(h, step);
    case Dispatch(_) => SwitchInv(h, step);
    case Sched => SwitchInv(h, step);
    case _ => TrapInv(h, step);
  }

  // --- every run ---

  /** Booted: the scheduler alone, interrupts off, nothing held. */
  function Boot(): Hart { Hart(false, 0, false, {}, None, Context(0, {}, None, [], false, false), [], None) }

  predicate Runs(h: Hart, steps: seq<Step>)
    decreases |steps|
  {
    steps == [] || (Enabled(h, steps[0]) && Runs(Do(h, steps[0]), steps[1..]))
  }

  function After(h: Hart, steps: seq<Step>): Hart
    requires Runs(h, steps)
    decreases |steps|
  {
    if steps == [] then h else After(Do(h, steps[0]), steps[1..])
  }

  lemma {:induction false} RunInv(h: Hart, steps: seq<Step>)
    requires Inv(h) && Runs(h, steps)
    ensures Inv(After(h, steps))
    decreases |steps|
  {
    if steps != [] {
      StepInv(h, steps[0]);
      RunInv(Do(h, steps[0]), steps[1..]);
    }
  }

  ghost predicate Reachable(h: Hart) { exists steps :: Runs(Boot(), steps) && h == After(Boot(), steps) }

  lemma ReachableInv(h: Hart)
    requires Reachable(h)
    ensures Inv(h)
  {
    var steps :| Runs(Boot(), steps) && h == After(Boot(), steps);
    RunInv(Boot(), steps);
  }

  /** Whatever ran in between, the pop_off (or the drop of a lock) that ends a thread's outermost region leaves SIE
      as the push_off (or the lock) that began it found it. */
  lemma PopRestores(h: Hart, step: Step)
    requires Reachable(h) && Enabled(h, step) && (step.PopOff? || step.Unlock?)
    requires h.current.Some? && h.Me().saw.Some? && h.Me().Depth() == 1
    ensures Do(h, step).sie == h.Me().saw.value
  {
    ReachableInv(h);
  }

  /** Thread `t` is inside a region under push_off, on or off the hart. */
  predicate Inside(h: Hart, t: nat) { t < |h.threads| && h.threads[t].Depth() > 0 }

  lemma SawKept(h: Hart, step: Step, t: nat)
    requires Enabled(h, step) && Inside(h, t) && Inside(Do(h, step), t) && h.threads[t].saw.Some?
    ensures Do(h, step).threads[t].saw == h.threads[t].saw
  {
  }

  predicate StaysInside(h: Hart, steps: seq<Step>, t: nat)
    requires Runs(h, steps)
    decreases |steps|
  {
    Inside(h, t) && (steps == [] || StaysInside(Do(h, steps[0]), steps[1..], t))
  }

  lemma {:induction false} SawKeptRun(h: Hart, steps: seq<Step>, t: nat)
    requires Runs(h, steps) && StaysInside(h, steps, t) && h.threads[t].saw.Some?
    ensures t < |After(h, steps).threads| && After(h, steps).threads[t].saw == h.threads[t].saw
    decreases |steps|
  {
    if steps != [] {
      SawKept(h, steps[0], t);
      SawKeptRun(Do(h, steps[0]), steps[1..], t);
    }
  }

  /** Over whole runs: a thread at depth zero enters a region, any number of steps of any threads follow while it
      stays inside, with any number of switches, and it leaves.  SIE is then what it was before it entered. */
  lemma RegionRestores(h: Hart, enter: Step, steps: seq<Step>, leave: Step)
    requires Reachable(h) && Enabled(h, enter) && (enter.PushOff? || enter.Lock?) && h.current.Some?
    requires h.Me().Depth() == 0
    requires Runs(Do(h, enter), steps) && StaysInside(Do(h, enter), steps, h.current.value)
    requires
      var g := After(Do(h, enter), steps);
      g.current == h.current && Enabled(g, leave) && (leave.PopOff? || leave.Unlock?) && g.Me().Depth() == 1
    ensures Do(After(Do(h, enter), steps), leave).sie == h.sie
  {
    var t, h1 := h.current.value, Do(h, enter);
    ReachableStep(h, enter);
    assert h1.threads[t].saw == Some(h.sie);
    SawKeptRun(h1, steps, t);
    ReachableRun(h1, steps);
    PopRestores(After(h1, steps), leave);
  }

  lemma {:induction false} ReachableRun(h: Hart, steps: seq<Step>)
    requires Reachable(h) && Runs(h, steps)
    ensures Reachable(After(h, steps))
    decreases |steps|
  {
    if steps != [] {
      ReachableStep(h, steps[0]);
      ReachableRun(Do(h, steps[0]), steps[1..]);
    }
  }

  /** The same holds on the scheduler's stack if and only if no thread has switched back since the push_off, or
      the one that did had found interrupts as the scheduler had. */
  lemma SchedulerRestores(h: Hart, step: Step)
    requires Reachable(h) && Enabled(h, step) && (step.PopOff? || step.Unlock?)
    requires h.current.None? && h.Me().saw.Some? && h.Me().Depth() == 1
    ensures Do(h, step).sie == h.Me().saw.value <==> (h.back.None? || h.back == h.Me().saw)
  {
    ReachableInv(h);
  }

  /** The scheduler stays inside its region, on or off the hart. */
  predicate SchedulerInside(h: Hart, steps: seq<Step>)
    requires Runs(h, steps)
    decreases |steps|
  {
    h.scheduler.Depth() > 0 && (steps == [] || SchedulerInside(Do(h, steps[0]), steps[1..]))
  }

  /** What the thread that switched back last had found, with `b` if none does. */
  function LastBack(h: Hart, steps: seq<Step>, b: Option<bool>): Option<bool>
    requires Runs(h, steps)
    decreases |steps|
  {
    if steps == [] then b else LastBack(Do(h, steps[0]), steps[1..], if steps[0].Sched? then h.Me().saw else b)
  }

  lemma SchedulerKept(h: Hart, step: Step)
    requires Enabled(h, step) && h.scheduler.Depth() > 0 && Do(h, step).scheduler.Depth() > 0 && h.scheduler.saw.Some?
    ensures Do(h, step).scheduler.saw == h.scheduler.saw
    ensures Do(h, step).back == if step.Sched? then h.Me().saw else h.back
  {
  }

  lemma {:induction false} SchedulerKeptRun(h: Hart, steps: seq<Step>)
    requires Runs(h, steps) && SchedulerInside(h, steps) && h.scheduler.saw.Some?
    ensures After(h, steps).scheduler.saw == h.scheduler.saw
    ensures After(h, steps).back == LastBack(h, steps, h.back)
    decreases |steps|
  {
    hide Enabled, Do;
    if steps != [] {
      var h' := Do(h, steps[0]);
      assert SchedulerInside(h', steps[1..]) && h'.scheduler.Depth() > 0;
      SchedulerKept(h, steps[0]);
      SchedulerKeptRun(h', steps[1..]);
    }
  }

  /** Over whole runs: the scheduler at depth zero enters a region, any number of steps follow while it stays inside,
      with any number of switches to threads and back, and it leaves.  SIE is then what it was before if and only if no
      thread switched back meanwhile, or the last one that did had found SIE as the scheduler did. */
  lemma SchedulerRegion(h: Hart, enter: Step, steps: seq<Step>, leave: Step)
    requires Reachable(h) && Enabled(h, enter) && (enter.PushOff? || enter.Lock?) && h.current.None?
    requires h.Me().Depth() == 0
    requires Runs(Do(h, enter), steps) && SchedulerInside(Do(h, enter), steps)
    requires
      var g := After(Do(h, enter), steps);
      g.current.None? && Enabled(g, leave) && (leave.PopOff? || leave.Unlock?) && g.Me().Depth() == 1
    ensures
      var back := LastBack(Do(h, enter), steps, None);
      Do(After(Do(h, enter), steps), leave).sie == h.sie <==> back.None? || back == Some(h.sie)
  {
    var h1 := Do(h, enter);
    ReachableStep(h, enter);
    assert h1.scheduler.saw == Some(h.sie) && h1.back.None?;
    SchedulerKeptRun(h1, steps);
    ReachableRun(h1, steps);
    SchedulerRestores(After(h1, steps), leave);
  }

  lemma {:induction false} OneMore(h: Hart, steps: seq<Step>, step: Step)
    requires Runs(h, steps) && Enabled(After(h, steps), step)
    ensures Runs(h, steps + [step]) && After(h, steps + [step]) == Do(After(h, steps), step)
    decreases |steps|
  {
    if steps == [] {
      assert [step][1..] == [];
    } else {
      OneMore(Do(h, steps[0]), steps[1..], step);
      assert (steps + [step])[1..] == steps[1..] + [step];
    }
  }

  lemma ReachableStep(h: Hart, step: Step)
    requires Reachable(h) && Enabled(h, step)
    ensures Reachable(Do(h, step))
  {
    var steps :| Runs(Boot(), steps) && h == After(Boot(), steps);
    OneMore(Boot(), steps, step);
  }

  /** The one thread is dispatched for the first time. */
  lemma FirstDispatch() returns (h: Hart)
    ensures Reachable(h)
    ensures h == Hart(false, 1, true, {}, Some(0), Context(1, {}, Some(true), [], false, false), [FRESH], None)
  {
    assert Runs(Boot(), []) && After(Boot(), []) == Boot();
    h := Boot();
    ReachableStep(h, Spawn);
    h := Do(h, Spawn);
    ReachableStep(h, IntrOn);
    h := Do(h, IntrOn);
    ReachableStep(h, PushOff);
    h := Do(h, PushOff);
    ReachableStep(h, Dispatch(0));
    h := Do(h, Dispatch(0));
  }

  /** Up to the point where that thread is in its timer interrupt. */
  lemma PreemptedThread() returns (h: Hart)
    ensures Reachable(h) && h.Ok() && h.current == Some(0) && h.sie == false && h.noff == 0
    ensures h.threads == [Context(0, {}, None, [Frame(true, false)], false, false)]
    ensures h.scheduler == Context(1, {}, Some(true), [], false, false)
  {
    h := FirstDispatch();
    ReachableStep(h, PopOff);
    h := Do(h, PopOff);
    assert h.threads[0] == Context(0, {}, None, [], false, false);
    ReachableStep(h, Trap);
    h := Do(h, Trap);
    assert h.threads[0] == Context(0, {}, None, [Frame(true, false)], false, false);
  }

  /** It does fail: a thread preempted by the timer switches back having found interrupts off, so the scheduler's
      pop_off leaves them off although its push_off found them on. */
  lemma SchedulerExample() returns (h: Hart)
    ensures Reachable(h) && Enabled(h, PopOff) && h.current.None? && h.Me().Depth() == 1
    ensures h.Me().saw == Some(true) && !Do(h, PopOff).sie
  {
    h := PreemptedThread();
    ReachableStep(h, PushOff);
    h := Do(h, PushOff);
    ReachableStep(h, Step.Sched);
    h := Do(h, Step.Sched);
  }

  /** A region under push_off, and every handler, is atomic: no interrupt can be taken inside it. */
  lemma RegionsAtomic(h: Hart)
    requires Reachable(h) && h.Ok() && (h.noff > 0 || h.Me().Handler())
    ensures !h.sie && !h.Me().user && !Enabled(h, Trap)
  {
    ReachableInv(h);
  }

  /** No lock is held by anyone off the hart, and none at a switch; so a lock() the holder does not already hold
      never finds the flag set, and never spins. */
  lemma LockNeverSpins(h: Hart, l: nat)
    requires Reachable(h) && h.Ok()
    ensures Enabled(h, Step.Sched) || (exists t :: Enabled(h, Dispatch(t))) ==> h.locked == {}
    ensures Enabled(h, Lock(l)) ==> l !in h.locked
    ensures forall t :: 0 <= t < |h.threads| && h.current != Some(t) ==> h.threads[t].held == {}
  {
    ReachableInv(h);
    forall t | 0 <= t < |h.threads| && h.current != Some(t) ensures h.threads[t].held == {} {
      assert Parked(h.threads[t]);
    }
  }

  /** From depth zero on a thread's stack the hart can be given up inside a region, on each path the kernel takes there:
      directly (yield_now, join, sleep_ticks), after a lock was taken and dropped inside the region (the wait of a
      semaphore, a read of the console), and after a nested region (the wakeup in exit). */
  lemma GivesUp(h: Hart, l: nat)
    requires Reachable(h) && h.current.Some? && h.Ok() && h.Me().Depth() == 0 && !h.Me().user
    ensures GivesUpAfter(h, [PushOff])
    ensures GivesUpAfter(h, [PushOff, Lock(l), Unlock(l)])
    ensures GivesUpAfter(h, [PushOff, PushOff, PopOff])
  {
    ReachableInv(h);
    PushInside(h);
    LockInside(h, l);
    NestInside(h);
    hide Enabled, Do, Inv, Runs, After;
    One(h, PushOff);
    Three(h, PushOff, Lock(l), Unlock(l));
    Three(h, PushOff, PushOff, PopOff);
  }

  /** The steps can be taken, they stay on this thread, and sched() can be called after them. */
  predicate GivesUpAfter(h: Hart, steps: seq<Step>)
  {
    Runs(h, steps) && After(h, steps).current == h.current && Enabled(After(h, steps), Step.Sched)
  }

  lemma One(h: Hart, s: Step)
    requires Enabled(h, s)
    ensures Runs(h, [s]) && After(h, [s]) == Do(h, s)
  {
    assert Runs(Do(h, s), []) && After(Do(h, s), []) == Do(h, s);
    assert [s][1..] == [];
  }

  lemma Two(h: Hart, s: Step, t: Step)
    requires Enabled(h, s) && Enabled(Do(h, s), t)
    ensures Runs(h, [s, t]) && After(h, [s, t]) == Do(Do(h, s), t)
  {
    hide Enabled, Do;
    One(Do(h, s), t);
    assert [s, t][1..] == [t];
  }

  lemma Three(h: Hart, s: Step, t: Step, u: Step)
    requires Enabled(h, s) && Enabled(Do(h, s), t) && Enabled(Do(Do(h, s), t), u)
    ensures Runs(h, [s, t, u]) && After(h, [s, t, u]) == Do(Do(Do(h, s), t), u)
  {
    hide Enabled, Do;
    Two(Do(h, s), t, u);
    assert [s, t, u][1..] == [t, u];
  }

  lemma PushInside(h: Hart)
    requires Inv(h) && h.current.Some? && h.Me().Depth() == 0 && !h.Me().user
    ensures Enabled(h, PushOff)
    ensures
      var h1 := Do(h, PushOff);
      && h1.Ok() && h1.Me() == h.Me().(plain := 1, saw := Some(h.sie)) && h1.noff == 1 && h1.current == h.current
      && Enabled(h1, Step.Sched)
  {
  }

  lemma LockInside(h: Hart, l: nat)
    requires Inv(h) && h.current.Some? && h.Me().Depth() == 0 && !h.Me().user
    ensures Enabled(h, PushOff) && Enabled(Do(h, PushOff), Lock(l)) && Enabled(Do(Do(h, PushOff), Lock(l)), Unlock(l))
    ensures
      var h3 := Do(Do(Do(h, PushOff), Lock(l)), Unlock(l));
      Enabled(h3, Step.Sched) && h3.current == h.current
  {
    PushInside(h);
    var h1 := Do(h, PushOff);
    var h2 := Do(h1, Lock(l));
    assert h2.Me() == h1.Me().(held := {l}) && h2.noff == 2;
    var h3 := Do(h2, Unlock(l));
    assert h3.Me() == h1.Me() && h3.noff == 1;
  }

  lemma NestInside(h: Hart)
    requires Inv(h) && h.current.Some? && h.Me().Depth() == 0 && !h.Me().user
    ensures Enabled(h, PushOff) && Enabled(Do(h, PushOff), PushOff) && Enabled(Do(Do(h, PushOff), PushOff), PopOff)
    ensures
      var h3 := Do(Do(Do(h, PushOff), PushOff), PopOff);
      Enabled(h3, Step.Sched) && h3.current == h.current
  {
    PushInside(h);
    var h1 := Do(h, PushOff);
    var h2 := Do(h1, PushOff);
    assert h2.Me() == h1.Me().(plain := 2) && h2.noff == 2;
    var h3 := Do(h2, PopOff);
    assert h3.Me() == h1.Me() && h3.noff == 1;
  }

  /** Wherever an interrupt can be taken on a thread's stack, its handler starts at depth zero: preemption meets what
      sched() asserts. */
  lemma PreemptionLegal(h: Hart, l: nat)
    requires Reachable(h) && h.current.Some? && Enabled(h, Trap)
    ensures
      var g := Do(h, Trap);
      && g.Ok() && Reachable(g) && g.Me().Handler() && g.Me().Depth() == 0
      && GivesUpAfter(g, [PushOff]) && GivesUpAfter(g, [PushOff, Lock(l), Unlock(l)])
  {
    ReachableInv(h);
    ReachableStep(h, Trap);
    GivesUp(Do(h, Trap), l);
  }

  /** The asserts of pop_off and sched hold: interrupts are off, a level is held, and sched() is called with exactly
      one. */
  lemma AssertsHold(h: Hart)
    requires Reachable(h) && h.Ok() && !h.Me().Fresh()
    ensures h.Me().plain > 0 ==> !h.sie && h.noff > 0
    ensures h.current.Some? && h.Me().plain == 1 && h.Me().held == {} && !h.Me().user ==> Enabled(h, Step.Sched)
  {
    ReachableInv(h);
  }

  // --- the cells of src/spinlock.rs ---

  /** SIE, NOFF, INTENA and the lock flags; `hart` adds who is running. */
  class Cells {
    var sie: bool
    var noff: nat
    var intena: bool
    var locked: set<nat>
    ghost var hart: Hart

    ghost predicate Valid()
      reads this
    {
      Inv(hart) && hart.sie == sie && hart.noff == noff && hart.intena == intena && hart.locked == locked
    }

    constructor ()
      ensures Valid() && hart == Boot()
    {
      sie, noff, intena, locked, hart := false, 0, false, {}, Boot();
    }

    method PushOff()
      requires Valid() && Enabled(hart, Step.PushOff)
      modifies this
      ensures Valid() && hart == Do(old(hart), Step.PushOff)
    {
      StepInv(hart, Step.PushOff);
      hide Inv;
      hart := Do(hart, Step.PushOff);
      Raise();
    }

    method Raise()
      modifies `sie, `noff, `intena
      ensures sie == false && noff == old(noff) + 1 && intena == if old(noff) == 0 then old(sie) else old(intena)
    {
      var was := sie;
      sie := false;
      if noff == 0 {
        intena := was;
      }
      noff := noff + 1;
    }

    method Lower()
      requires noff > 0
      modifies `sie, `noff
      ensures noff == old(noff) - 1 && sie == (old(sie) || (old(noff) == 1 && intena))
    {
      noff := noff - 1;
      if noff == 0 && intena {
        sie := true;
      }
    }

    method PopOff()
      requires Valid() && Enabled(hart, Step.PopOff)
      modifies this
      ensures Valid() && hart == Do(old(hart), Step.PopOff)
    {
      StepInv(hart, Step.PopOff);
      hide Inv;
      hart := Do(hart, Step.PopOff);
      Lower();
    }

    /** The exchange succeeds at the first try. */
    method Lock(l: nat)
      requires Valid() && Enabled(hart, Step.Lock(l))
      modifies this
      ensures l !in old(locked) && Valid() && hart == Do(old(hart), Step.Lock(l))
    {
      StepInv(hart, Step.Lock(l));
      assert l !in locked;
      hide Inv;
      hart := Do(hart, Step.Lock(l));
      Raise();
      locked := locked + {l};
    }

    method Unlock(l: nat)
      requires Valid() && Enabled(hart, Step.Unlock(l))
      modifies this
      ensures Valid() && hart == Do(old(hart), Step.Unlock(l))
    {
      StepInv(hart, Step.Unlock(l));
      hide Inv;
      hart := Do(hart, Step.Unlock(l));
      locked := locked - {l};
      Lower();
    }
  }
}
