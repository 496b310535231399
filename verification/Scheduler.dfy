/**
 The scheduler's steps on the process table (src/proc.rs:372-459, src/proc.rs:620-681): giving up the
 hart, waking sleepers, dying, reaping and dispatching.
 */
module Scheduler {
  import opened Options
  import opened PageTables
  import opened Phys
  import opened UserTables
  import opened AddressSpaces
  import opened Builds
  import opened Processes
  import opened RoundRobin
  import opened ThreadStates

  // --- state changes that move no address space ---

  /** Only states differ. */
  predicate SameButState(a: Option<Process>, b: Option<Process>)
  {
    match (a, b)
    case (None, None) => true
    case (Some(p), Some(q)) => q == p.(state := q.state)
    case _ => false
  }

  predicate OnlyStates(procs: Table, procs': Table)
  {
    |procs'| == |procs| && forall i :: 0 <= i < |procs| ==> SameButState(procs[i], procs'[i])
  }

  lemma OnlyStatesKeep(mem: Mem, role: Roles, kroot: nat, procs: Table, procs': Table, building: set<nat>, nextPid: nat,
                       pending: set<nat>)
    requires OnlyStates(procs, procs') && SpacesOk(role, kroot, procs, building) && PidsOk(procs, nextPid, pending)
    requires HeapsOk(mem, procs)
    ensures SpacesOk(role, kroot, procs', building) && PidsOk(procs', nextPid, pending) && HeapsOk(mem, procs')
  {
    OnlyStatesSpaces(role, kroot, procs, procs', building);
    hide View, HeapOk, SpacesOk;
    forall i | 0 <= i < |procs'| ensures SameButState(procs[i], procs'[i]) {
    }
  }

  lemma OnlyStatesSpaces(role: Roles, kroot: nat, procs: Table, procs': Table, building: set<nat>)
    requires OnlyStates(procs, procs') && SpacesOk(role, kroot, procs, building)
    ensures SpacesOk(role, kroot, procs', building)
  {
    forall i | 0 <= i < |procs'| ensures forall t: nat :: Uses(procs[i], t) <==> Uses(procs'[i], t) {
      assert SameButState(procs[i], procs'[i]);
    }
    forall i | 0 <= i < |procs'| && procs'[i].Some? ensures ProcOk(role, kroot, procs'[i].value) {
      assert SameButState(procs[i], procs'[i]) && ProcOk(role, kroot, procs[i].value);
    }
    hide SameButState, ProcOk;
    forall t: nat ensures SomeUses(procs, t) <==> SomeUses(procs', t) {
    }
  }

  // --- sleep and wakeup ---

  function Woken(slot: Option<Process>, chan: nat): Option<Process>
  {
    if slot.Some? && slot.value.state == Sleeping(chan) then Some(slot.value.(state := Runnable)) else slot
  }

  /** The pass over the slots: every thread asleep on `chan` becomes Runnable, and nothing else changes. */
  method WakeAll(procs: Table, chan: nat) returns (r: Table)
    ensures |r| == |procs| && forall i :: 0 <= i < |procs| ==> r[i] == Woken(procs[i], chan)
  {
    r := procs;
    var i := 0;
    while i < |r|
      invariant 0 <= i <= |r| == |procs|
      invariant forall j :: 0 <= j < i ==> r[j] == Woken(procs[j], chan)
      invariant forall j :: i <= j < |procs| ==> r[j] == procs[j]
    {
      if r[i].Some? && r[i].value.state == Sleeping(chan) {
        r := r[i := Some(r[i].value.(state := Runnable))];
      }
      i := i + 1;
    }
  }

  /** wakeup */
  method Wakeup(pt: ProcTable, chan: nat)
    requires pt.Valid()
    modifies pt`procs
    ensures pt.Valid() && |pt.procs| == |old(pt.procs)|
    ensures forall i :: 0 <= i < |pt.procs| ==> pt.procs[i] == Woken(old(pt.procs)[i], chan)
    ensures forall i :: 0 <= i < |pt.procs| ==>
              match old(pt.procs)[i]
              case None => pt.procs[i].None?
              case Some(p) => pt.procs[i] == Some(if p.state == Sleeping(chan) then p.(state := Runnable) else p)
  {
    hide TreeOk, FreeOk, KernelKept, BuildsOk, Roots, SpacesOk, PidsOk, HeapsOk, View;
    ghost var procs0 := pt.procs;
    pt.procs := WakeAll(pt.procs, chan);
    OnlyStatesKeep(pt.phys.mem, pt.phys.role, pt.phys.kernelRoot, procs0, pt.procs, Roots(pt.builds), pt.nextPid,
                   pt.pending);
    assert pt.current.Some? ==> pt.procs[pt.current.value] == Woken(procs0[pt.current.value], chan);
  }

  /** The running thread leaves the hart in state `st` (yield: Runnable, sleep: Sleeping, exit: Zombie), and the
      scheduler takes the kernel table back. */
  method Sched(pt: ProcTable, st: State)
    requires pt.Valid() && pt.current.Some? && !st.Running?
    modifies pt`procs, pt`current, pt`satp
    ensures pt.Valid() && pt.current.None? && pt.satp == pt.phys.kernelRoot
    ensures
      var c := old(pt.current.value);
      pt.procs == old(pt.procs)[c := Some(old(pt.procs[pt.current.value].value).(state := st))]
  {
    hide TreeOk, FreeOk, KernelKept, BuildsOk, Roots, SpacesOk, PidsOk, HeapsOk, View;
    ghost var procs0 := pt.procs;
    var i := pt.current.value;
    pt.procs := pt.procs[i := Some(pt.procs[i].value.(state := st))];
    pt.satp := pt.phys.kernelRoot;
    pt.current := None;
    OnlyStatesKeep(pt.phys.mem, pt.phys.role, pt.phys.kernelRoot, procs0, pt.procs, Roots(pt.builds), pt.nextPid,
                   pt.pending);
  }

  /** exit: become a zombie, wake everyone waiting for an exit, never run again. */
  method Exit(pt: ProcTable)
    requires pt.Valid() && pt.current.Some?
    modifies pt`procs, pt`current, pt`satp
    ensures pt.Valid() && pt.current.None? && |pt.procs| == |old(pt.procs)|
    ensures
      var c := old(pt.current.value);
      forall i :: 0 <= i < |pt.procs| ==>
        pt.procs[i] ==
          if i == c then Some(old(pt.procs)[c].value.(state := Zombie)) else Woken(old(pt.procs)[i], EXIT_CHAN)
  {
    hide TreeOk, FreeOk, KernelKept, BuildsOk, Roots, SpacesOk, PidsOk, HeapsOk, View;
    CurrentRuns(pt.procs, pt.current, pt.satp, pt.phys.kernelRoot);
    ghost var procs0 := pt.procs;
    var c := pt.current.value;
    pt.procs := pt.procs[c := Some(pt.procs[c].value.(state := Zombie))];
    pt.procs := WakeAll(pt.procs, EXIT_CHAN);
    pt.satp := pt.phys.kernelRoot;
    pt.current := None;
    OnlyStatesKeep(pt.phys.mem, pt.phys.role, pt.phys.kernelRoot, procs0, pt.procs, Roots(pt.builds), pt.nextPid,
                   pt.pending);
  }

  // --- dispatch ---

  function ReadyOf(procs: Table): (r: seq<bool>)
    ensures |r| == |procs|
    ensures forall i :: 0 <= i < |procs| ==> r[i] == (procs[i].Some? && procs[i].value.state.Runnable?)
  {
    seq(|procs|, i requires 0 <= i < |procs| => procs[i].Some? && procs[i].value.state.Runnable?)
  }

  /** The scan and switch of the scheduler loop: run the next Runnable thread on its own table, if there is one. */
  method Dispatch(pt: ProcTable) returns (picked: Option<nat>)
    requires pt.Valid() && pt.current.None?
    modifies pt`procs, pt`current, pt`satp, pt`nextSlot
    ensures pt.Valid() && IsPick(ReadyOf(old(pt.procs)), old(pt.nextSlot), picked)
    ensures picked.None? ==> unchanged(pt)
    ensures picked.Some? ==>
              && pt.current == picked && pt.nextSlot == picked.value + 1
              && pt.procs == old(pt.procs)[picked.value := Some(old(pt.procs)[picked.value].value.(state := Running))]
              && pt.satp == pt.procs[picked.value].value.pageTable
  {
    hide TreeOk, FreeOk, KernelKept, BuildsOk, Roots, SpacesOk, PidsOk, HeapsOk, View, Distance;
    picked := Scan(ReadyOf(pt.procs), pt.nextSlot);
    if picked.Some? {
      ghost var procs0 := pt.procs;
      var idx := picked.value;
      pt.nextSlot := idx + 1;
      pt.current := Some(idx);
      pt.procs := pt.procs[idx := Some(pt.procs[idx].value.(state := Running))];
      pt.satp := pt.procs[idx].value.pageTable;
      OnlyStatesKeep(pt.phys.mem, pt.phys.role, pt.phys.kernelRoot, procs0, pt.procs, Roots(pt.builds), pt.nextPid,
                   pt.pending);
    }
  }

  // --- reaping ---

  predicate IsZombie(slot: Option<Process>) { slot.Some? && slot.value.state.Zombie? }

  /** One iteration of the reaping loop on a zombie slot. */
  method ReapSlot(pt: ProcTable, i: nat)
    requires pt.Valid() && pt.current.None? && i < |pt.procs| && IsZombie(pt.procs[i])
    modifies pt`procs, pt.phys
    ensures pt.Valid() && pt.procs == old(pt.procs)[i := None] && pt.OthersKept(i)
    ensures pt.phys.kernelRoot == old(pt.phys.kernelRoot) && pt.phys.role.Keys == old(pt.phys.role).Keys
    ensures
      var t := old(pt.procs)[i].value.userTable;
      pt.phys.role == if t.Some? then Reaped(old(pt.phys.role), t.value) else old(pt.phys.role)
  {
    hide TreeOk, FreeOk, KernelKept, BuildsOk, Roots, SpacesOk, PidsOk, RunOk, View, HeapOk, Owner;
    ghost var procs0, mem0, role0, kroot := pt.procs, pt.phys.mem, pt.phys.role, pt.phys.kernelRoot;
    ghost var building := Roots(pt.builds);
    SlotOk(role0, kroot, procs0, building, i);
    SpacesDetach(role0, kroot, procs0, building, i, None);
    ClearRuns(procs0, pt.nextPid, pt.pending, i, pt.current, pt.satp, kroot);
    var table := pt.procs[i].value.userTable;
    pt.procs := pt.procs[i := None];
    if table.Some? {
      ghost var b := building + {table.value};
      assert b == building - {} + {table.value};
      NotBuilding(role0, kroot, procs0, pt.builds, i);
      SpacesReaped(mem0, role0, kroot, pt.procs, b, table.value);
      FreeUserTable(pt.phys, table.value, pt.satp);
      ReapKept(pt.boot, mem0, role0, pt.phys.mem, kroot, table.value);
      ReapViews(mem0, role0, pt.phys.mem, kroot, procs0, building, i);
      assert b - {table.value} == building;
      ReapBuilds(mem0, role0, pt.phys.mem, kroot, table.value, pt.builds);
    }
  }

  lemma ClearRuns(procs: Table, nextPid: nat, pending: set<nat>, i: nat, current: Option<nat>, satp: nat, kroot: nat)
    requires PidsOk(procs, nextPid, pending) && RunOk(procs, current, satp, kroot) && current.None? && i < |procs|
    ensures PidsOk(procs[i := None], nextPid, pending) && RunOk(procs[i := None], current, satp, kroot) && satp == kroot
  {
  }

  lemma ReapViews(mem0: Mem, role0: Roles, mem: Mem, kroot: nat, procs: Table, building: set<nat>, i: nat)
    requires TreeOk(mem0, role0, kroot) && SpacesOk(role0, kroot, procs, building) && HeapsOk(mem0, procs)
    requires i < |procs| && procs[i].Some? && procs[i].value.userTable.Some?
    requires SameMaps(mem0, mem, Reaped(role0, procs[i].value.userTable.value))
    requires forall p :: p in role0 && !role0[p].Free? && Owner(role0, p) != procs[i].value.userTable ==>
        p in mem && p in mem0 && mem[p] == mem0[p]
    ensures HeapsOk(mem, procs[i := None])
    ensures forall j :: 0 <= j < |procs| && j != i && procs[j].Some? && procs[j].value.userTable.Some? ==>
              View(mem, procs[j].value.pageTable) == View(mem0, procs[j].value.pageTable)
  {
    var t := procs[i].value.userTable.value;
    forall j | 0 <= j < |procs| && j != i && procs[j].Some? && procs[j].value.userTable.Some?
      ensures View(mem, procs[j].value.pageTable) == View(mem0, procs[j].value.pageTable)
    {
      assert ProcOk(role0, kroot, procs[j].value);
      assert Uses(procs[i], t) && !Uses(procs[j], t);
      ReapView(mem0, role0, mem, kroot, t, procs[j].value.pageTable);
    }
    hide View, HeapOk;
  }

  /** Tables of the zombies among the first n slots. */
  predicate ZombieTable(procs: Table, n: nat, t: Option<nat>)
  {
    t.Some? && exists i :: 0 <= i < n && i < |procs| && IsZombie(procs[i]) && Uses(procs[i], t.value)
  }

  /** Reaping returns exactly the pages the zombies held. */
  ghost predicate ReapedUpTo(role0: Roles, role: Roles, procs0: Table, n: nat)
  {
    && role.Keys == role0.Keys
    && forall p :: p in role0 ==>
         if ZombieTable(procs0, n, Owner(role0, p)) then role[p].Free?
         else role[p] == role0[p] && Owner(role, p) == Owner(role0, p)
  }

  /** The reaping loop at the top of each scheduler round: every zombie's slot is emptied and exactly its pages
      go back to the free list; every other process keeps its slot and its memory. */
  method Reap(pt: ProcTable)
    requires pt.Valid() && pt.current.None?
    modifies pt`procs, pt.phys
    ensures pt.Valid() && |pt.procs| == |old(pt.procs)|
    ensures forall j :: 0 <= j < |pt.procs| ==>
        pt.procs[j] == if IsZombie(old(pt.procs)[j]) then None else old(pt.procs)[j]
    ensures ReapedUpTo(old(pt.phys.role), pt.phys.role, old(pt.procs), |old(pt.procs)|)
    ensures forall j :: 0 <= j < |pt.procs| && pt.procs[j].Some? && pt.procs[j].value.userTable.Some? ==>
              pt.Memory(j) == old(pt.Memory(j))
  {
    hide TreeOk, FreeOk, KernelKept, BuildsOk, Roots, SpacesOk, PidsOk, RunOk, View, HeapsOk, ReapedUpTo;
    ghost var procs0, mem0, role0 := pt.procs, pt.phys.mem, pt.phys.role;
    ReapStart(role0, procs0);
    var i := 0;
    while i < |pt.procs|
      invariant 0 <= i <= |pt.procs| == |procs0| && pt.Valid() && pt.current.None?
      invariant forall j :: 0 <= j < i ==> pt.procs[j] == if IsZombie(procs0[j]) then None else procs0[j]
      invariant forall j :: i <= j < |procs0| ==> pt.procs[j] == procs0[j]
      invariant ReapedUpTo(role0, pt.phys.role, procs0, i)
      invariant forall j :: 0 <= j < |pt.procs| && pt.procs[j].Some? && pt.procs[j].value.userTable.Some? ==>
                  View(pt.phys.mem, pt.procs[j].value.pageTable) == View(mem0, pt.procs[j].value.pageTable)
    {
      ReapStep(pt.phys.mem, role0, pt.phys.role, pt.phys.kernelRoot, procs0, i);
      if IsZombie(pt.procs[i]) {
        ReapSlot(pt, i);
      }
      i := i + 1;
    }
  }

  lemma ReapStart(role: Roles, procs: Table)
    ensures ReapedUpTo(role, role, procs, 0)
  {
  }

  lemma ReapStep(mem: Mem, role0: Roles, role: Roles, kroot: nat, procs: Table, i: nat)
    requires TreeOk(mem, role, kroot) && i < |procs| && ReapedUpTo(role0, role, procs, i)
    ensures
      if IsZombie(procs[i]) && procs[i].value.userTable.Some?
      then ReapedUpTo(role0, Reaped(role, procs[i].value.userTable.value), procs, i + 1)
      else ReapedUpTo(role0, role, procs, i + 1)
  {
    forall t: Option<nat>
      ensures ZombieTable(procs, i + 1, t) <==>
          ZombieTable(procs, i, t) || (t.Some? && IsZombie(procs[i]) && Uses(procs[i], t.value))
    {
    }
    if IsZombie(procs[i]) && procs[i].value.userTable.Some? {
      var t := procs[i].value.userTable.value;
      forall p | p in role && Owner(role, p) != Some(t) ensures Owner(Reaped(role, t), p) == Owner(role, p) {
        ReapedOwner(mem, role, kroot, t, p);
      }
    }
    hide TreeOk, Owner;
  }
}
