/**
 The process table (src/proc.rs): who owns which address space, from spawn to reap.
 Each method is one step of the kernel that runs with interrupts off (or, for building an
 image, touches nothing another step can see); `Valid` holds between any two steps.
 */
module Processes {
  import opened Options
  import opened Bytes
  import opened PageTables
  import opened Phys
  import opened KernelTable
  import opened UserTables
  import opened AddressSpaces
  import opened Builds
  import opened TrapFrames
  import opened ThreadStates

  const HEAP_BASE := 0x5000_0000
  const HEAP_MAX := 0x6000_0000
  const USER_TEXT := 0x4000_0000
  const USER_STACK_TOP := 0x4100_0000
  const USIZE_MAX := 0xffff_ffff_ffff_ffff

  datatype Fd = Fd(fileIdx: nat, offset: nat)

  datatype Process = Process(
    pid: nat, state: State, pageTable: nat, userTable: Option<nat>, entry: nat, sp: nat,
    heapBase: nat, heapBrk: nat, fds: seq<Option<Fd>>, forkFrame: Option<TrapFrame>)

  /** Outcomes of a page fault: retried, the process dies, or no page was left for a table. */
  datatype Fault = Serviced | Refused | Panic

  type Table = seq<Option<Process>>

  const NO_FDS: seq<Option<Fd>> := [None, None, None, None, None, None, None, None]

  predicate Uses(slot: Option<Process>, t: nat)
  {
    slot.Some? && slot.value.userTable == Some(t)
  }

  predicate SomeUses(procs: Table, t: nat)
  {
    exists i :: 0 <= i < |procs| && Uses(procs[i], t)
  }

  /** A process runs on its own table if it has one and on the kernel's otherwise; its heap bounds stay in the heap
      window. */
  predicate ProcOk(role: Roles, kroot: nat, p: Process)
  {
    match p.userTable
    case None => p.pageTable == kroot && p.heapBase == p.heapBrk == 0
    case Some(t) =>
      && p.pageTable == t && t in role && role[t].Root? && t != kroot
      && p.heapBase == HEAP_BASE && HEAP_BASE <= p.heapBrk <= HEAP_MAX
  }

  /** The address spaces are exactly the kernel's, one per user process, and those still being built. */
  ghost predicate SpacesOk(role: Roles, kroot: nat, procs: Table, building: set<nat>)
  {
    && (forall i :: 0 <= i < |procs| && procs[i].Some? ==> ProcOk(role, kroot, procs[i].value))
    && (forall i, j, t :: 0 <= i < j < |procs| && Uses(procs[i], t) ==> !Uses(procs[j], t))
    && (forall t :: t in building ==> t in role && role[t].Root? && t != kroot && !SomeUses(procs, t))
    && (forall t :: t in role && role[t].Root? && t != kroot ==> t in building || SomeUses(procs, t))
  }

  /** No two processes have the same pid, and no pid in the hands of a spawning thread is a process's. */
  ghost predicate PidsOk(procs: Table, nextPid: nat, pending: set<nat>)
  {
    && (forall pid :: pid in pending ==> 0 < pid < nextPid)
    && (forall i :: 0 <= i < |procs| && procs[i].Some? ==> procs[i].value.pid !in pending)
    && (forall i :: 0 <= i < |procs| && procs[i].Some? ==> 0 < procs[i].value.pid < nextPid)
    && (forall i, j :: 0 <= i < j < |procs| && procs[i].Some? && procs[j].Some? ==>
          procs[i].value.pid != procs[j].value.pid)
  }

  /** At most one process is Running, it is `current`, and satp names its table; otherwise satp is the kernel's. */
  ghost predicate RunOk(procs: Table, current: Option<nat>, satp: nat, kroot: nat)
  {
    && (forall i :: 0 <= i < |procs| && procs[i].Some? && procs[i].value.state.Running? ==> current == Some(i))
    && (match current
        case None => satp == kroot
        case Some(i) =>
          i < |procs| && procs[i].Some? && procs[i].value.state.Running? && satp == procs[i].value.pageTable)
  }

  const HEAP_VP := HEAP_BASE / 4096
  const HEAP_END_VP := HEAP_MAX / 4096

  /** Pages in the heap window are there because they were demand-mapped: readable and writable, not executable. */
  predicate HeapOk(view: map<nat, Leaf>)
  {
    forall u :: u in view && HEAP_VP <= u < HEAP_END_VP ==> view[u].perm == PERM_DATA && |view[u].page| == WORDS
  }

  ghost predicate HeapsOk(mem: Mem, procs: Table)
  {
    forall i :: 0 <= i < |procs| && procs[i].Some? && procs[i].value.userTable.Some? ==>
        HeapOk(View(mem, procs[i].value.pageTable))
  }

  lemma ImageHeapOk(image: seq<nat>)
    requires LoadableImage(image)
    ensures HeapOk(ImageView(image))
  {
  }

  // --- the partition of physical pages ---

  /** Everything a page can be used for. */
  datatype Holder = FreeList | Kernel | Proc(slot: nat) | Building(id: nat)

  ghost predicate HeldBy(role: Roles, kroot: nat, procs: Table, builds: Builds, p: nat, h: Holder)
    requires p in role
  {
    match h
    case FreeList => role[p].Free?
    case Kernel => Owner(role, p) == Some(kroot)
    case Proc(i) => i < |procs| && Owner(role, p).Some? && Uses(procs[i], Owner(role, p).value)
    case Building(id) =>
      id in builds && (Claims(builds[id], p) || (Owner(role, p).Some? && HasRoot(builds[id], Owner(role, p).value)))
  }

  /** Every page of the pool has exactly one holder. */
  lemma Partition(mem: Mem, role: Roles, kroot: nat, procs: Table, builds: Builds, p: nat) returns (h: Holder)
    requires TreeOk(mem, role, kroot) && SpacesOk(role, kroot, procs, Roots(builds))
    requires BuildsOk(mem, role, kroot, builds)
    requires p in role
    ensures HeldBy(role, kroot, procs, builds, p, h)
    ensures forall g :: HeldBy(role, kroot, procs, builds, p, g) ==> g == h
  {
    hide BuildOk;
    forall id | id in builds && Claims(builds[id], p) ensures role[p].Loose? {
      ClaimsLoose(mem, role, kroot, builds[id], p);
    }
    hide Claims;
    if role[p].Free? {
      h := FreeList;
      assert Owner(role, p) == None;
    } else if role[p].Loose? {
      assert Owner(role, p) == None && Claimed(builds, p);
      var id :| id in builds && Claims(builds[id], p);
      h := Building(id);
    } else {
      OwnerSome(mem, role, kroot, p);
      OwnerIsRoot(mem, role, kroot, p);
      h := RootHolder(mem, role, kroot, procs, builds, p, Owner(role, p).value);
    }
  }

  lemma RootHolder(mem: Mem, role: Roles, kroot: nat, procs: Table, builds: Builds, p: nat, t: nat) returns (h: Holder)
    requires SpacesOk(role, kroot, procs, Roots(builds)) && BuildsOk(mem, role, kroot, builds)
    requires p in role && Owner(role, p) == Some(t) && t in role && role[t].Root? && !role[p].Loose?
    requires forall id :: id in builds ==> !Claims(builds[id], p)
    ensures HeldBy(role, kroot, procs, builds, p, h)
    ensures forall g :: HeldBy(role, kroot, procs, builds, p, g) ==> g == h
  {
    hide BuildOk, Claims;
    forall id | id in builds && HasRoot(builds[id], t) ensures t in Roots(builds) {
    }
    if t == kroot {
      h := Kernel;
    } else if t in Roots(builds) {
      var id :| id in builds && HasRoot(builds[id], t);
      h := Building(id);
    } else {
      var i :| 0 <= i < |procs| && Uses(procs[i], t);
      h := Proc(i);
    }
  }

  lemma OwnerSome(mem: Mem, role: Roles, kroot: nat, p: nat)
    requires TreeOk(mem, role, kroot) && p in role && !role[p].Free? && !role[p].Loose?
    ensures Owner(role, p).Some?
  {
    assert UpOk(mem, role, kroot, p);
    if role[p].Frame? {
      assert UpOk(mem, role, kroot, role[p].low);
    }
  }

  // --- how the steps move address spaces around ---

  /** The slot `spawn_with` publishes into: the first empty one, or a new one at the end. */
  function FirstFree(procs: Table): (i: nat)
    ensures i <= |procs|
    ensures i < |procs| ==> procs[i].None?
    ensures forall j :: 0 <= j < i ==> procs[j].Some?
  {
    if procs == [] || procs[0].None? then 0 else 1 + FirstFree(procs[1..])
  }

  method FindSlot(procs: Table) returns (i: nat)
    ensures i == FirstFree(procs)
  {
    i := 0;
    while i < |procs| && procs[i].Some?
      invariant i <= |procs| && forall j :: 0 <= j < i ==> procs[j].Some?
    {
      i := i + 1;
    }
  }

  function Place(procs: Table, p: Process): (r: Table)
    ensures
      var i := FirstFree(procs);
      i < |r| && r[i] == Some(p) && |r| == (if i < |procs| then |procs| else |procs| + 1)
    ensures forall j :: 0 <= j < |procs| && j != FirstFree(procs) ==> r[j] == procs[j]
  {
    var i := FirstFree(procs);
    if i < |procs| then procs[i := Some(p)] else procs + [Some(p)]
  }

  lemma SpacesBuilt(mem0: Mem, role0: Roles, mem: Mem, role: Roles, kroot: nat, procs: Table, building: set<nat>,
                    c: nat)
    requires TreeOk(mem0, role0, kroot) && SpacesOk(role0, kroot, procs, building) && Built(mem0, role0, mem, role, c)
    ensures SpacesOk(role, kroot, procs, building + {c}) && c !in building && !SomeUses(procs, c)
  {
    forall i | 0 <= i < |procs| && procs[i].Some? ensures ProcOk(role, kroot, procs[i].value) && !Uses(procs[i], c) {
      assert ProcOk(role0, kroot, procs[i].value);
    }
    forall t | t in role && role[t].Root? && t != kroot && t != c ensures t in building || SomeUses(procs, t) {
      assert Owner(role, t) == Some(t);
    }
  }

  lemma SpacesPlace(role: Roles, kroot: nat, procs: Table, building: set<nat>, p: Process)
    requires SpacesOk(role, kroot, procs, building) && ProcOk(role, kroot, p)
    requires p.userTable.Some? ==> p.userTable.value in building
    ensures SpacesOk(role, kroot, Place(procs, p), building - (if p.userTable.Some? then {p.userTable.value} else {}))
  {
    var procs', k := Place(procs, p), FirstFree(procs);
    forall t | SomeUses(procs, t) ensures SomeUses(procs', t) {
      var i :| 0 <= i < |procs| && Uses(procs[i], t);
      assert Uses(procs'[i], t);
    }
    forall t: nat | SomeUses(procs', t) ensures SomeUses(procs, t) || p.userTable == Some(t) {
      var i :| 0 <= i < |procs'| && Uses(procs'[i], t);
      if i != k {
        assert Uses(procs[i], t);
      }
    }
    assert p.userTable.Some? ==> Uses(procs'[k], p.userTable.value);
  }

  lemma PlaceRuns(procs: Table, nextPid: nat, pending: set<nat>, p: Process, current: Option<nat>, satp: nat,
                  kroot: nat)
    requires PidsOk(procs, nextPid, pending) && p.pid in pending && p.state.Runnable?
    requires RunOk(procs, current, satp, kroot)
    ensures PidsOk(Place(procs, p), nextPid, pending - {p.pid}) && RunOk(Place(procs, p), current, satp, kroot)
  {
  }

  /** The running process changes its record but not its pid or state. */
  lemma ReplaceRuns(procs: Table, nextPid: nat, pending: set<nat>, q: Process, current: Option<nat>, satp: nat,
                    kroot: nat)
    requires PidsOk(procs, nextPid, pending) && RunOk(procs, current, satp, kroot) && current.Some?
    requires q.pid == procs[current.value].value.pid && q.state.Running?
    ensures PidsOk(procs[current.value := Some(q)], nextPid, pending)
    ensures RunOk(procs[current.value := Some(q)], current, q.pageTable, kroot)
  {
  }

  lemma CurrentRuns(procs: Table, current: Option<nat>, satp: nat, kroot: nat)
    requires RunOk(procs, current, satp, kroot) && current.Some?
    ensures current.value < |procs| && procs[current.value].Some? && procs[current.value].value.state.Running?
    ensures satp == procs[current.value].value.pageTable
  {
  }

  /** A slot gives up its table (it exits, or exec replaced it): the table is nobody's until it is freed. */
  lemma SpacesDetach(role: Roles, kroot: nat, procs: Table, building: set<nat>, i: nat, slot: Option<Process>)
    requires SpacesOk(role, kroot, procs, building) && i < |procs| && procs[i].Some?
    requires slot.Some? ==> ProcOk(role, kroot, slot.value)
    requires slot.Some? && slot.value.userTable != procs[i].value.userTable ==>
               slot.value.userTable.Some? && slot.value.userTable.value in building
    ensures
      var old_ := procs[i].value.userTable;
      var new_ := if slot.Some? then slot.value.userTable else None;
      SpacesOk(role, kroot, procs[i := slot],
               if new_ == old_ then building
               else building - (if new_.Some? then {new_.value} else {}) + (if old_.Some? then {old_.value} else {}))
  {
    hide SomeUses;
    var procs' := procs[i := slot];
    forall t ensures SomeUses(procs', t) <==> Uses(slot, t) || (SomeUses(procs, t) && !Uses(procs[i], t)) {
      DetachUses(role, kroot, procs, building, i, slot, t);
    }
    forall j, t | 0 <= j < |procs| && Uses(procs[j], t) ensures SomeUses(procs, t) {
      UsesSome(procs, j, t);
    }
  }

  lemma UsesSome(procs: Table, j: nat, t: nat)
    requires j < |procs| && Uses(procs[j], t)
    ensures SomeUses(procs, t)
  {
  }

  lemma DetachUses(role: Roles, kroot: nat, procs: Table, building: set<nat>, i: nat, slot: Option<Process>, t: nat)
    requires SpacesOk(role, kroot, procs, building) && i < |procs|
    ensures SomeUses(procs[i := slot], t) <==> Uses(slot, t) || (SomeUses(procs, t) && !Uses(procs[i], t))
  {
    hide ProcOk;
    var procs' := procs[i := slot];
    if Uses(slot, t) {
      assert Uses(procs'[i], t);
    }
    forall j | 0 <= j < |procs| && j != i && Uses(procs[j], t) ensures SomeUses(procs', t) {
      assert Uses(procs'[j], t);
    }
    forall j | 0 <= j < |procs'| && j != i && Uses(procs'[j], t) ensures SomeUses(procs, t) && !Uses(procs[i], t) {
      assert Uses(procs[j], t);
    }
  }

  lemma SpacesReaped(mem: Mem, role: Roles, kroot: nat, procs: Table, building: set<nat>, t: nat)
    requires TreeOk(mem, role, kroot) && SpacesOk(role, kroot, procs, building) && t in building
    ensures SpacesOk(Reaped(role, t), kroot, procs, building - {t})
  {
    var role' := Reaped(role, t);
    forall i | 0 <= i < |procs| && procs[i].Some? ensures ProcOk(role', kroot, procs[i].value) {
      assert ProcOk(role, kroot, procs[i].value);
      assert !Uses(procs[i], t);
    }
    forall r | r in building && r != t ensures role'[r].Root? {
      assert Owner(role, r) == Some(r);
    }
  }

  lemma SpacesGrew(mem0: Mem, role0: Roles, mem: Mem, role: Roles, kroot: nat, procs: Table, building: set<nat>,
                   root: nat)
    requires TreeOk(mem0, role0, kroot) && SpacesOk(role0, kroot, procs, building)
    requires root in role0 && role0[root].Root? && Grew(mem0, role0, mem, role, root, {})
    ensures SpacesOk(role, kroot, procs, building)
  {
    forall i | 0 <= i < |procs| && procs[i].Some? ensures ProcOk(role, kroot, procs[i].value) {
      assert ProcOk(role0, kroot, procs[i].value);
    }
    forall t | t in role && role[t].Root? ensures role0[t].Root? {
      assert Owner(role, t) == Some(t);
    }
  }

  /** A space built next to others leaves all of them exactly as they were. */
  lemma OthersUntouched(mem0: Mem, role0: Roles, mem: Mem, role: Roles, kroot: nat, c: nat, want: map<nat, Leaf>,
                        r: nat)
    requires TreeOk(mem0, role0, kroot) && Filling(mem0, role0, mem, role, kroot, c, want)
    requires r in role0 && role0[r].Root? && r != kroot
    ensures View(mem, r) == View(mem0, r) && r != c
  {
    ViewFrame(mem0, role0, kroot, mem, r);
  }

  lemma AllKept(mem0: Mem, role0: Roles, mem: Mem, role: Roles, kroot: nat, c: nat, want: map<nat, Leaf>, procs: Table,
                building: set<nat>)
    requires TreeOk(mem0, role0, kroot) && Filling(mem0, role0, mem, role, kroot, c, want)
    requires SpacesOk(role0, kroot, procs, building)
    ensures forall j :: 0 <= j < |procs| && procs[j].Some? && procs[j].value.userTable.Some? ==>
              View(mem, procs[j].value.pageTable) == View(mem0, procs[j].value.pageTable)
    ensures HeapsOk(mem0, procs) ==> HeapsOk(mem, procs)
  {
    forall j | 0 <= j < |procs| && procs[j].Some? && procs[j].value.userTable.Some?
      ensures View(mem, procs[j].value.pageTable) == View(mem0, procs[j].value.pageTable)
    {
      assert ProcOk(role0, kroot, procs[j].value);
      OthersUntouched(mem0, role0, mem, role, kroot, c, want, procs[j].value.pageTable);
    }
  }

  // --- builds in progress ---

  /** A space built at once, next to the others, disturbs no build. */
  lemma BuiltBuilds(mem0: Mem, role0: Roles, mem: Mem, role: Roles, kroot: nat, c: nat, builds: Builds)
    requires TreeOk(mem0, role0, kroot) && Built(mem0, role0, mem, role, c) && BuildsOk(mem0, role0, kroot, builds)
    ensures BuildsOk(mem, role, kroot, builds) && c !in Roots(builds)
  {
    hide TreeOk;
    forall id | id in builds && builds[id].Growing? ensures builds[id].root != c {
      assert BuildOk(mem0, role0, kroot, builds[id]);
    }
    BesideBuilds(mem0, role0, mem, role, kroot, c, builds);
  }

  lemma GrewBuilds(mem0: Mem, role0: Roles, mem: Mem, role: Roles, kroot: nat, root: nat, builds: Builds)
    requires TreeOk(mem0, role0, kroot) && Grew(mem0, role0, mem, role, root, {})
    requires BuildsOk(mem0, role0, kroot, builds)
    requires root !in Roots(builds)
    ensures BuildsOk(mem, role, kroot, builds) && role.Keys == role0.Keys
  {
    hide TreeOk, BuildsOk;
    BesideBuilds(mem0, role0, mem, role, kroot, root, builds);
  }

  lemma ReapBuilds(mem0: Mem, role0: Roles, mem: Mem, kroot: nat, t: nat, builds: Builds)
    requires TreeOk(mem0, role0, kroot) && BuildsOk(mem0, role0, kroot, builds) && t !in Roots(builds)
    requires forall p :: p in role0 && !role0[p].Free? && Owner(role0, p) != Some(t) ==>
        p in mem && p in mem0 && mem[p] == mem0[p]
    ensures BuildsOk(mem, Reaped(role0, t), kroot, builds) && Reaped(role0, t).Keys == role0.Keys
  {
    hide BuildsOk;
    forall p | p in role0 && Owner(role0, p) != Some(t) ensures Owner(Reaped(role0, t), p) == Owner(role0, p) {
      ReapedOwner(mem0, role0, kroot, t, p);
    }
    hide Owner, TreeOk;
    BesideBuilds(mem0, role0, mem, Reaped(role0, t), kroot, t, builds);
  }

  /** Reaping one space leaves the ownership of every other page as it was. */
  lemma ReapedOwner(mem: Mem, role: Roles, kroot: nat, t: nat, p: nat)
    requires TreeOk(mem, role, kroot) && p in role && Owner(role, p) != Some(t)
    ensures Owner(Reaped(role, t), p) == Owner(role, p)
  {
    assert UpOk(mem, role, kroot, p);
    if role[p].Frame? {
      assert UpOk(mem, role, kroot, role[p].low);
    }
  }

  /** The table of a process is no build's. */
  lemma NotBuilding(role: Roles, kroot: nat, procs: Table, builds: Builds, i: nat)
    requires SpacesOk(role, kroot, procs, Roots(builds)) && i < |procs| && procs[i].Some?
    requires procs[i].value.userTable.Some?
    ensures procs[i].value.userTable.value !in Roots(builds)
  {
    assert Uses(procs[i], procs[i].value.userTable.value);
  }

  // --- the kernel map ---

  /** The kernel's translations are what they were when the table was made. */
  ghost predicate KernelKept(boot: Mem, mem: Mem, kroot: nat)
  {
    forall v: nat {:trigger Lookup(mem, kroot, v)} :: v < VP_END ==> Lookup(mem, kroot, v) == Lookup(boot, kroot, v)
  }

  lemma SameKept(boot: Mem, mem0: Mem, mem: Mem, role: Roles, kroot: nat)
    requires KernelKept(boot, mem0, kroot) && SameMaps(mem0, mem, role) && kroot in role && role[kroot].Root?
    ensures KernelKept(boot, mem, kroot)
  {
    hide Lookup;
    forall v: nat | v < VP_END ensures Lookup(mem, kroot, v) == Lookup(boot, kroot, v) {
      assert Lookup(mem, kroot, v) == Lookup(mem0, kroot, v);
    }
  }

  lemma FillKept(boot: Mem, mem0: Mem, role0: Roles, mem: Mem, role: Roles, kroot: nat, c: nat, want: map<nat, Leaf>)
    requires KernelKept(boot, mem0, kroot) && TreeOk(mem0, role0, kroot)
    requires Filling(mem0, role0, mem, role, kroot, c, want)
    ensures KernelKept(boot, mem, kroot)
  {
    hide Lookup, KernelKept, View, Built;
    SameKept(boot, mem0, mem, role0, kroot);
  }

  lemma ReapKept(boot: Mem, mem0: Mem, role0: Roles, mem: Mem, kroot: nat, t: nat)
    requires KernelKept(boot, mem0, kroot) && TreeOk(mem0, role0, kroot) && t != kroot
    requires SameMaps(mem0, mem, Reaped(role0, t))
    ensures KernelKept(boot, mem, kroot)
  {
    hide Lookup, KernelKept;
    SameKept(boot, mem0, mem, Reaped(role0, t), kroot);
  }

  lemma MapKept(boot: Mem, mem0: Mem, role0: Roles, mem: Mem, kroot: nat, root: nat, v: nat, f: nat)
    requires KernelKept(boot, mem0, kroot) && TreeOk(mem0, role0, kroot) && root != kroot
    requires Mapped(mem0, mem, role0, root, v, f, 1, PERM_DATA)
    ensures KernelKept(boot, mem, kroot)
  {
    hide Lookup, LeafPte;
    forall u: nat | u < VP_END ensures Lookup(mem, kroot, u) == Lookup(boot, kroot, u) {
      assert Lookup(mem, kroot, u) == Lookup(mem0, kroot, u);
    }
  }

  /** Outside the user gigabyte every root translates as the kernel's does. */
  lemma RootSeesKernel(mem: Mem, role: Roles, kroot: nat, root: nat, v: nat)
    requires TreeOk(mem, role, kroot) && root in role && role[root].Root? && v < VP_END && V2(v) != USER_SLOT
    ensures Lookup(mem, root, v) == Lookup(mem, kroot, v)
  {
    assert DownOk(mem, role, kroot, root, V2(v));
    hide IsValid, Ppn, V0, V1, V2;
  }

  /** The kernel's own table maps nothing in the user gigabyte. */
  lemma KernelViewEmpty(mem: Mem, role: Roles, kroot: nat)
    requires TreeOk(mem, role, kroot)
    ensures kroot in role && role[kroot].Root? && View(mem, kroot) == map[]
  {
    assert DownOk(mem, role, kroot, kroot, USER_SLOT);
    SlotEmpty(mem, kroot);
  }

  /** At every step boundary satp names a live root, the running process's own or the kernel's, and through it the
      kernel sees the whole map it was booted with. */
  lemma ActiveRoot(pt: ProcTable, v: nat)
    requires pt.Valid() && v < VP_END && V2(v) != USER_SLOT
    ensures pt.satp in pt.phys.role && pt.phys.role[pt.satp].Root?
    ensures pt.satp == if pt.current.Some? then pt.procs[pt.current.value].value.pageTable else pt.bootRoot
    ensures Lookup(pt.phys.mem, pt.satp, v) == Lookup(pt.boot, pt.bootRoot, v)
  {
    hide Lookup, FreeOk, PidsOk, HeapsOk, View, V2;
    if pt.current.Some? {
      assert ProcOk(pt.phys.role, pt.phys.kernelRoot, pt.procs[pt.current.value].value);
    }
    RootSeesKernel(pt.phys.mem, pt.phys.role, pt.phys.kernelRoot, pt.satp, v);
    assert Lookup(pt.phys.mem, pt.bootRoot, v) == Lookup(pt.boot, pt.bootRoot, v);
  }

  /** A kernel thread has no heap: the table stays as it should be if and only if its break does not move. */
  lemma SbrkThread(role: Roles, kroot: nat, procs: Table, building: set<nat>, i: nat, delta: nat)
    requires SpacesOk(role, kroot, procs, building) && i < |procs| && procs[i].Some? && procs[i].value.userTable.None?
    ensures
      var q := procs[i].value.(heapBrk := procs[i].value.heapBrk + delta);
      if delta == 0 then procs[i := Some(q)] == procs else !SpacesOk(role, kroot, procs[i := Some(q)], building)
  {
    var procs' := procs[i := Some(procs[i].value.(heapBrk := procs[i].value.heapBrk + delta))];
    assert ProcOk(role, kroot, procs[i].value);
    if delta != 0 {
      assert !ProcOk(role, kroot, procs'[i].value);
    }
  }

  class ProcTable {
    const phys: PhysMem
    var procs: Table
    var current: Option<nat>
    var nextSlot: nat
    var nextPid: nat
    /** The pids that a thread in spawn_with has taken and not yet published. */
    var pending: set<nat>
    /** The root satp points at. */
    var satp: nat
    /** Images whose loading has begun and that are not yet published as a process, by who builds them. */
    var builds: Builds
    /** Memory and root as the kernel table was made. */
    ghost const boot: Mem
    ghost const bootRoot: nat
    /** The pages the allocator was given. */
    ghost const pool: set<nat>

    ghost predicate Valid()
      reads this, phys
    {
      Core(Roots(builds)) && BuildsOk(phys.mem, phys.role, phys.kernelRoot, builds)
    }

    /** All of `Valid` but the builds, where the roots in `building` are nobody's. */
    ghost predicate Core(building: set<nat>)
      reads this, phys
    {
      && phys.Booted()
      && SpacesOk(phys.role, phys.kernelRoot, procs, building)
      && PidsOk(procs, nextPid, pending) && 0 < nextPid && nextSlot <= |procs|
      && RunOk(procs, current, satp, phys.kernelRoot)
      && HeapsOk(phys.mem, procs)
      && phys.kernelRoot == bootRoot && KernelKept(boot, phys.mem, bootRoot) && phys.role.Keys == pool
    }

    /** The user-visible memory of the process in slot i. */
    ghost function Memory(i: nat): map<nat, Leaf>
      requires i < |procs| && procs[i].Some?
      reads this, phys
    {
      View(phys.mem, procs[i].value.pageTable)
    }

    /** Is a user process running (as in every system call and every user page fault)? */
    ghost predicate UserRuns()
      reads this
    {
      && current.Some? && current.value < |procs| && procs[current.value].Some?
      && procs[current.value].value.userTable.Some?
    }

    /** Every process but `i` has the record and the memory it had. */
    twostate predicate OthersKept(new i: nat)
      reads this, phys
    {
      forall j :: 0 <= j < |old(procs)| && j != i && old(procs)[j].Some? ==>
        && j < |procs| && procs[j] == old(procs)[j]
        && (procs[j].value.userTable.Some? ==>
              View(phys.mem, procs[j].value.pageTable) == old(View(phys.mem, procs[j].value.pageTable)))
    }

    /** The scheduler state at boot, once the kernel table is active. */
    constructor (k: PhysMem)
      requires k.Booted() && OnlyRoot(k.role, k.kernelRoot) && NoLoose(k.role)
      ensures phys == k && Valid() && procs == [] && current == None && builds == map[]
      ensures boot == k.mem && bootRoot == k.kernelRoot
      ensures nextSlot == 0 && nextPid == 1 && pending == {} && pool == k.role.Keys
    {
      phys := k;
      boot, bootRoot, pool := k.mem, k.kernelRoot, k.role.Keys;
      procs, current, nextSlot, nextPid, pending, satp, builds := [], None, 0, 1, {}, k.kernelRoot, map[];
    }

    /** spawn_with up to its region: the process gets a number, with interrupts on. */
    method TakePid(ghost building: set<nat>) returns (pid: nat)
      requires Core(building)
      modifies `nextPid, `pending
      ensures Core(building) && pid == old(nextPid) && nextPid == pid + 1
      ensures pid !in old(pending) && pending == old(pending) + {pid}
    {
      hide TreeOk, FreeOk, KernelKept, SpacesOk, RunOk, View, HeapOk;
      pid := nextPid;
      nextPid := nextPid + 1;
      pending := pending + {pid};
    }

    /** The region of spawn_with: find a slot and make the process visible as Runnable.
        Its table, if it has one of its own, was in `building`. */
    method Publish(p: Process, ghost building: set<nat>)
      requires Core(building) && p.pid in pending && p.state.Runnable? && ProcOk(phys.role, phys.kernelRoot, p)
      requires p.userTable.Some? ==> p.userTable.value in building && HeapOk(View(phys.mem, p.pageTable))
      modifies `procs, `pending
      ensures Core(building - (if p.userTable.Some? then {p.userTable.value} else {}))
      ensures procs == Place(old(procs), p) && pending == old(pending) - {p.pid}
    {
      hide TreeOk, FreeOk, KernelKept, SpacesOk, PidsOk, RunOk, View, HeapOk;
      PlaceRuns(procs, nextPid, pending, p, current, satp, phys.kernelRoot);
      var i := FindSlot(procs);
      SpacesPlace(phys.role, phys.kernelRoot, procs, building, p);
      procs := if i < |procs| then procs[i := Some(p)] else procs + [Some(p)];
      pending := pending - {p.pid};
    }

    /** spawn after it has taken its pid: a kernel thread. */
    method StartThread(pid: nat)
      requires Valid() && pid in pending
      modifies `procs, `pending
      ensures Valid() && procs == Place(old(procs), KernelThread(pid, phys.kernelRoot))
      ensures pending == old(pending) - {pid}
    {
      hide BuildsOk;
      assert Roots(builds) - {} == Roots(builds);
      Publish(KernelThread(pid, phys.kernelRoot), Roots(builds));
    }

    /** spawn when nothing interrupts it. */
    method Spawn() returns (pid: nat)
      requires Valid()
      modifies `procs, `nextPid, `pending
      ensures Valid() && pid == old(nextPid) && nextPid == pid + 1 && pending == old(pending)
      ensures procs == Place(old(procs), KernelThread(pid, phys.kernelRoot))
    {
      hide Core, BuildsOk;
      pid := TakePid(Roots(builds));
      StartThread(pid);
    }

    /** spawn_user when nothing interrupts it: load the image, then publish a process that runs it.
        Spawning has the same call one step at a time. */
    method SpawnUser(image: seq<nat>) returns (pid: Option<nat>)
      requires Valid() && LoadableImage(image)
      modifies `procs, `nextPid, `pending, phys
      ensures pid.None? ==> phys.freePages == 0
      ensures pid.Some? ==> Valid() && pid.value == old(nextPid) && nextPid == pid.value + 1 && pending == old(pending)
      ensures pid.Some? ==>
                var i := FirstFree(old(procs));
                && i < |procs| && procs[i].Some? && procs == Place(old(procs), procs[i].value)
                && procs[i].value == Fresh(pid.value, procs[i].value.pageTable)
                && Memory(i) == ImageView(image)
                && (IsImage(image) ==> StartsProgram(procs[i].value, Memory(i), image))
                && (forall fd :: fd in procs[i].value.fds ==> fd.None?)
      ensures pid.Some? ==> OthersKept(FirstFree(old(procs)))
    {
      hide TreeOk, FreeOk, KernelKept, Filling, PidsOk, RunOk, SpacesOk, HeapsOk, View, ImageView, HeapOk, BuildsOk,
           Roots, StartsProgram;
      ghost var mem0, role0, kroot, building := phys.mem, phys.role, phys.kernelRoot, Roots(builds);
      var t := LoadUserImage(phys, image);
      if t.None? {
        return None;
      }
      SpaceAdded(mem0, role0, phys.mem, phys.role, kroot, t.value, ImageView(image), procs, builds, boot);
      FillView(mem0, role0, phys.mem, phys.role, kroot, t.value, ImageView(image));
      ImageHeapOk(image);
      if IsImage(image) {
        FreshStarts(Fresh(nextPid, t.value), image);
      }
      var n := TakePid(building + {t.value});
      Publish(Fresh(n, t.value), building + {t.value});
      assert building + {t.value} - {t.value} == building;
      return Some(n);
    }

    /** fork: a child with the same memory, heap, files and registers, except a0 = 0; the parent gets its pid. */
    method Fork(frame: TrapFrame) returns (pid: Option<nat>)
      requires Valid() && UserRuns() && frame.Valid()
      modifies `procs, `nextPid, `pending, phys
      ensures pid.None? ==> phys.freePages == 0
      ensures pid.Some? ==> Valid() && pid.value == old(nextPid) && nextPid == pid.value + 1 && pending == old(pending)
      ensures pid.Some? ==>
                var parent := old(procs[current.value].value);
                var i := FirstFree(old(procs));
                && i < |procs| && procs[i].Some? && procs == Place(old(procs), procs[i].value)
                && var child := procs[i].value;
                   && child == Process(pid.value, Runnable, child.pageTable, Some(child.pageTable),
                                       frame.sepc, frame.Sp(), parent.heapBase, parent.heapBrk, parent.fds,
                                       Some(frame.WithA0(0)))
                   && Memory(i) == old(Memory(current.value))
                   && OthersKept(i)
    {
      hide TreeOk, FreeOk, KernelKept, Filling, PidsOk, View, RunOk, HeapOk, SpacesOk, BuildsOk, Roots;
      CurrentRuns(procs, current, satp, phys.kernelRoot);
      var parent := procs[current.value].value;
      ghost var mem0, role0, kroot, building := phys.mem, phys.role, phys.kernelRoot, Roots(builds);
      SlotOk(role0, kroot, procs, building, current.value);
      ghost var want := View(mem0, parent.pageTable);
      var c := CloneUserTable(phys, parent.pageTable);
      if c.None? {
        return None;
      }
      SpaceAdded(mem0, role0, phys.mem, phys.role, kroot, c.value, want, procs, builds, boot);
      FillView(mem0, role0, phys.mem, phys.role, kroot, c.value, want);
      var n := TakePid(building + {c.value});
      var child := Process(n, Runnable, c.value, c, frame.sepc, frame.Sp(), parent.heapBase, parent.heapBrk,
                           parent.fds, Some(frame.WithA0(0)));
      Publish(child, building + {c.value});
      assert building + {c.value} - {c.value} == building;
      return Some(n);
    }

    /** fork called by a kernel thread, which `current` names like any other.  The child gets a table with nothing in
        its user half and the thread's heap bounds, which are zero: not a user process, since its heap does not lie in
        the heap window.  So fork keeps the table valid if and only if its caller is a user process. */
    method ForkKernelThread(frame: TrapFrame) returns (pid: Option<nat>)
      requires Valid() && current.Some? && !UserRuns() && frame.Valid()
      modifies `procs, `nextPid, phys
      ensures pid.None? ==> phys.freePages == 0
      ensures pid.Some? ==> pid.value == old(nextPid) && nextPid == pid.value + 1 && !Valid()
      ensures pid.Some? ==>
                var i := FirstFree(old(procs));
                && i < |procs| && procs[i].Some? && procs == Place(old(procs), procs[i].value)
                && var child := procs[i].value;
                   && child == Process(pid.value, Runnable, child.pageTable, Some(child.pageTable),
                                       frame.sepc, frame.Sp(), 0, 0, old(procs[current.value].value).fds,
                                       Some(frame.WithA0(0)))
                   && Memory(i) == map[] && !ProcOk(phys.role, phys.kernelRoot, child)
    {
      hide TreeOk, FreeOk, KernelKept, Filling, PidsOk, View, RunOk, HeapOk, BuildsOk, Roots;
      CurrentRuns(procs, current, satp, phys.kernelRoot);
      var parent := procs[current.value].value;
      ghost var mem0, role0, kroot := phys.mem, phys.role, phys.kernelRoot;
      SlotOk(role0, kroot, procs, Roots(builds), current.value);
      KernelViewEmpty(mem0, role0, kroot);
      var c := CloneUserTable(phys, parent.pageTable);
      if c.None? {
        return None;
      }
      FillView(mem0, role0, phys.mem, phys.role, kroot, c.value, View(mem0, parent.pageTable));
      var p := Process(nextPid, Runnable, c.value, c, frame.sepc, frame.Sp(), parent.heapBase, parent.heapBrk,
                       parent.fds, Some(frame.WithA0(0)));
      pid := Some(nextPid);
      nextPid := nextPid + 1;
      var i := FindSlot(procs);
      procs := if i < |procs| then procs[i := Some(p)] else procs + [Some(p)];
      assert !ProcOk(phys.role, phys.kernelRoot, procs[i].value);
    }

    /** exec: a new image in a new space; satp moves before the old space is freed. */
    method Exec(image: seq<nat>) returns (ok: bool)
      requires Valid() && UserRuns() && LoadableImage(image)
      modifies `procs, `satp, phys
      ensures !ok ==> phys.freePages == 0
      ensures ok ==> Valid()
      ensures ok ==>
                var i := current.value;
                var was := old(procs[current.value].value);
                && i < |procs| && procs[i].Some? && procs == old(procs)[i := procs[i]]
                && var now := procs[i].value;
                   && now == Fresh(was.pid, now.pageTable).(state := was.state, fds := was.fds)
                   && satp == now.pageTable && Memory(i) == ImageView(image)
                   && (IsImage(image) ==> StartsProgram(now, Memory(i), image))
                   && OthersKept(i)
      ensures ok ==>
                var was := old(procs[current.value].value.userTable);
                && phys.role.Keys == old(phys.role).Keys
                && (forall p :: p in old(phys.role) && Owner(old(phys.role), p) == was ==> phys.role[p].Free?)
                && (forall p :: p in phys.role && phys.role[p].Free? ==>
                      old(phys.role)[p].Free? || Owner(old(phys.role), p) == was)
    {
      hide TreeOk, FreeOk, KernelKept, Filling, PidsOk, RunOk, View, SpacesOk, ImageView, Reaped, Owner, HeapOk,
           BuildsOk, Roots, StartsProgram;
      var i := current.value;
      var p := procs[i].value;
      CurrentRuns(procs, current, satp, phys.kernelRoot);
      ghost var mem0, role0, kroot, building := phys.mem, phys.role, phys.kernelRoot, Roots(builds);
      SlotOk(role0, kroot, procs, building, i);
      var t := LoadUserImage(phys, image);
      if t.None? {
        return false;
      }
      ghost var mem1, role1 := phys.mem, phys.role;
      SpaceAdded(mem0, role0, mem1, role1, kroot, t.value, ImageView(image), procs, builds, boot);
      var q := p.(pageTable := t.value, userTable := t, entry := USER_TEXT, sp := USER_STACK_TOP,
                  heapBase := HEAP_BASE, heapBrk := HEAP_BASE, forkFrame := None);
      if IsImage(image) {
        FreshStarts(q, image);
      }
      var oldTable := p.userTable.value;
      ghost var b1 := building + {t.value};
      SlotOk(role1, kroot, procs, b1, i);
      SpacesDetach(role1, kroot, procs, b1, i, Some(q));
      ReplaceRuns(procs, nextPid, pending, q, current, satp, kroot);
      procs := procs[i := Some(q)];
      satp := t.value;
      ghost var b2 := building + {oldTable};
      assert b1 - {t.value} + {oldTable} == b2;
      SpacesReaped(mem1, role1, kroot, procs, b2, oldTable);
      BuildingOk(role1, kroot, procs, b2, oldTable);
      FreeUserTable(phys, oldTable, satp);
      ReapKept(boot, mem1, role1, phys.mem, kroot, oldTable);
      ReapBuilds(mem1, role1, phys.mem, kroot, oldTable, builds);
      ExecViews(mem0, role0, mem1, role1, phys.mem, kroot, t.value, oldTable, ImageView(image), old(procs), building,
                i);
      ImageHeapOk(image);
      assert b2 - {oldTable} == building;
      return true;
    }

    /** sbrk: move the break up, never past USER_HEAP_MAX; nothing is mapped. */
    method Sbrk(delta: nat) returns (r: nat)
      requires Valid()
      modifies this`procs
      ensures Valid() <==> current.None? || old(UserRuns()) || procs == old(procs)
      ensures
        match current
        case None => r == USIZE_MAX && procs == old(procs)
        case Some(i) =>
          var p := old(procs[current.value].value);
          if p.heapBrk + delta <= HEAP_MAX
          then r == p.heapBrk && procs == old(procs)[i := Some(p.(heapBrk := p.heapBrk + delta))]
          else r == USIZE_MAX && procs == old(procs)
    {
      hide TreeOk, FreeOk, KernelKept, BuildsOk, Roots, SpacesOk, PidsOk, RunOk, View, HeapOk;
      if current.None? {
        return USIZE_MAX;
      }
      CurrentRuns(procs, current, satp, phys.kernelRoot);
      SlotOk(phys.role, phys.kernelRoot, procs, Roots(builds), current.value);
      var p := procs[current.value].value;
      var brk := p.heapBrk;
      if brk + delta > USIZE_MAX || brk + delta > HEAP_MAX {
        return USIZE_MAX;
      }
      var q := p.(heapBrk := brk + delta);
      if p.userTable.None? {
        procs := procs[current.value := Some(q)];
        SbrkThread(phys.role, phys.kernelRoot, old(procs), Roots(builds), current.value, delta);
        return brk;
      }
      SpacesDetach(phys.role, phys.kernelRoot, procs, Roots(builds), current.value, Some(q));
      ReplaceRuns(procs, nextPid, pending, q, current, satp, phys.kernelRoot);
      procs := procs[current.value := Some(q)];
      return brk;
    }

    /** service_page_fault: give the running process a zeroed page at a faulting heap address. */
    method ServicePageFault(addr: nat) returns (r: Fault)
      requires Valid()
      modifies phys
      ensures r != Panic ==> Valid()
      ensures r == Panic ==> 0 < old(phys.freePages) < 3 && phys.freePages == 0
      ensures phys.freePages + 3 >= old(phys.freePages)
      ensures r == Refused ==> unchanged(phys)
      ensures r == Refused <==>
                || current.None? || old(phys.freePages) == 0
                || !(procs[current.value].value.heapBase <= addr < procs[current.value].value.heapBrk)
                || (UserRuns() && addr / 4096 in old(Memory(current.value)))
      ensures r == Serviced ==>
                && UserRuns() && HEAP_BASE <= addr < HEAP_MAX
                && Memory(current.value) == old(Memory(current.value))[addr / 4096 := Leaf(ZEROS, PERM_DATA)]
                && OthersKept(current.value)
    {
      hide TreeOk, FreeOk, KernelKept, BuildsOk, Roots, SpacesOk, PidsOk, RunOk, View, HeapOk, Mapped, Grew, Lookup;
      if current.None? {
        return Refused;
      }
      var i := current.value;
      CurrentRuns(procs, current, satp, phys.kernelRoot);
      SlotOk(phys.role, phys.kernelRoot, procs, Roots(builds), i);
      var p := procs[i].value;
      if addr < p.heapBase || addr >= p.heapBrk {
        return Refused;
      }
      assert p.userTable.Some?;
      var pageVp := addr / 4096;
      InViewIff(phys.mem, p.pageTable, pageVp);
      var pte := phys.Translate(p.pageTable, pageVp);
      if pte.Some? {
        return Refused;
      }
      var had := phys.freePages;
      ghost var mem0, role0 := phys.mem, phys.role;
      var frame := phys.MapFresh(p.pageTable, pageVp, ZEROS, PERM_DATA);
      if frame.None? {
        return if had == 0 then Refused else Panic;
      }
      MapKept(boot, mem0, role0, phys.mem, phys.kernelRoot, p.pageTable, pageVp, frame.value);
      NotBuilding(role0, phys.kernelRoot, procs, builds, i);
      GrewBuilds(mem0, role0, phys.mem, phys.role, phys.kernelRoot, p.pageTable, builds);
      SpacesGrew(mem0, role0, phys.mem, phys.role, phys.kernelRoot, procs, Roots(builds), p.pageTable);
      FaultViews(mem0, role0, phys.mem, phys.role, phys.kernelRoot, procs, Roots(builds), i, pageVp, frame.value);
      return Serviced;
    }
  }

  /** What building a space at once leaves as it was: every process, every build, the kernel map. */
  lemma SpaceAdded(mem0: Mem, role0: Roles, mem: Mem, role: Roles, kroot: nat, c: nat, want: map<nat, Leaf>,
                procs: Table, builds: Builds, boot: Mem)
    requires TreeOk(mem0, role0, kroot) && Filling(mem0, role0, mem, role, kroot, c, want)
    requires SpacesOk(role0, kroot, procs, Roots(builds)) && HeapsOk(mem0, procs)
    requires BuildsOk(mem0, role0, kroot, builds) && KernelKept(boot, mem0, kroot)
    ensures SpacesOk(role, kroot, procs, Roots(builds) + {c}) && c !in Roots(builds) && HeapsOk(mem, procs)
    ensures BuildsOk(mem, role, kroot, builds) && KernelKept(boot, mem, kroot)
    ensures c != kroot && c in role && role[c].Root? && role.Keys == role0.Keys
    ensures forall j :: 0 <= j < |procs| && procs[j].Some? && procs[j].value.userTable.Some? ==>
              View(mem, procs[j].value.pageTable) == View(mem0, procs[j].value.pageTable)
  {
    hide TreeOk, Filling, SpacesOk, HeapsOk, BuildsOk, KernelKept, View, Roots, Built;
    FillBuilt(mem0, role0, mem, role, kroot, c, want);
    FillKept(boot, mem0, role0, mem, role, kroot, c, want);
    AllKept(mem0, role0, mem, role, kroot, c, want, procs, Roots(builds));
    SpacesBuilt(mem0, role0, mem, role, kroot, procs, Roots(builds), c);
    BuiltBuilds(mem0, role0, mem, role, kroot, c, builds);
  }

  lemma FillBuilt(mem0: Mem, role0: Roles, mem: Mem, role: Roles, kroot: nat, c: nat, want: map<nat, Leaf>)
    requires TreeOk(mem0, role0, kroot) && Filling(mem0, role0, mem, role, kroot, c, want)
    ensures Built(mem0, role0, mem, role, c) && c != kroot && c in role && role[c].Root? && role.Keys == role0.Keys
  {
  }

  lemma SlotOk(role: Roles, kroot: nat, procs: Table, building: set<nat>, i: nat)
    requires SpacesOk(role, kroot, procs, building) && i < |procs| && procs[i].Some?
    ensures ProcOk(role, kroot, procs[i].value)
    ensures procs[i].value.userTable.Some? ==> procs[i].value.userTable.value !in building
  {
    if procs[i].value.userTable.Some? {
      assert Uses(procs[i], procs[i].value.userTable.value);
    }
  }

  lemma BuildingOk(role: Roles, kroot: nat, procs: Table, building: set<nat>, t: nat)
    requires SpacesOk(role, kroot, procs, building) && t in building
    ensures t in role && role[t].Root? && t != kroot
  {
  }

  /** Across exec every other process keeps its memory, and the new one has the image. */
  lemma ExecViews(mem0: Mem, role0: Roles, mem1: Mem, role1: Roles, mem2: Mem, kroot: nat, c: nat, oldTable: nat,
                  want: map<nat, Leaf>, procs: Table, building: set<nat>, i: nat)
    requires TreeOk(mem0, role0, kroot) && TreeOk(mem1, role1, kroot) && SpacesOk(role0, kroot, procs, building)
    requires Filling(mem0, role0, mem1, role1, kroot, c, want)
    requires i < |procs| && Uses(procs[i], oldTable)
    requires SameMaps(mem1, mem2, Reaped(role1, oldTable))
    requires forall p :: p in role1 && !role1[p].Free? && Owner(role1, p) != Some(oldTable) ==>
        p in mem2 && p in mem1 && mem2[p] == mem1[p]
    ensures View(mem2, c) == want
    ensures forall j :: 0 <= j < |procs| && j != i && procs[j].Some? && procs[j].value.userTable.Some? ==>
              View(mem2, procs[j].value.pageTable) == View(mem0, procs[j].value.pageTable)
    ensures forall p :: p in role0 && Owner(role0, p) == Some(oldTable) ==>
        p in Reaped(role1, oldTable) && Reaped(role1, oldTable)[p].Free?
    ensures forall p :: p in Reaped(role1, oldTable) && Reaped(role1, oldTable)[p].Free? ==>
              p in role0 && (role0[p].Free? || Owner(role0, p) == Some(oldTable))
  {
    SlotOk(role0, kroot, procs, building, i);
    ReapView(mem1, role1, mem2, kroot, oldTable, c);
    forall j | 0 <= j < |procs| && j != i && procs[j].Some? && procs[j].value.userTable.Some?
      ensures View(mem2, procs[j].value.pageTable) == View(mem0, procs[j].value.pageTable)
    {
      var r := procs[j].value.pageTable;
      assert ProcOk(role0, kroot, procs[j].value);
      assert Uses(procs[j], r) && !Uses(procs[j], oldTable);
      OthersUntouched(mem0, role0, mem1, role1, kroot, c, want, r);
      ReapView(mem1, role1, mem2, kroot, oldTable, r);
    }
  }

  lemma ReapView(mem1: Mem, role1: Roles, mem2: Mem, kroot: nat, t: nat, r: nat)
    requires TreeOk(mem1, role1, kroot) && r in role1 && role1[r].Root? && r != kroot && r != t
    requires SameMaps(mem1, mem2, Reaped(role1, t))
    requires forall p :: p in role1 && !role1[p].Free? && Owner(role1, p) != Some(t) ==>
        p in mem2 && p in mem1 && mem2[p] == mem1[p]
    ensures View(mem2, r) == View(mem1, r)
  {
    forall u: nat | InUser(u) ensures Lookup(mem2, r, u) == Lookup(mem1, r, u) {
      assert Reaped(role1, t)[r].Root?;
    }
    forall u: nat | InUser(u) && Lookup(mem1, r, u).Some?
      ensures PageAt(mem2, Ppn(Lookup(mem1, r, u).value)) == PageAt(mem1, Ppn(Lookup(mem1, r, u).value))
    {
      UserLeaf(mem1, role1, kroot, r, u);
    }
    hide Lookup, Ppn, PermOf, PageAt, TreeOk;
  }

  lemma InViewIff(mem: Mem, root: nat, v: nat)
    ensures v in View(mem, root) <==> InUser(v) && Lookup(mem, root, v).Some?
  {
  }

  /** A serviced fault adds one zeroed page to the memory of one process. */
  lemma FaultViews(mem0: Mem, role0: Roles, mem: Mem, role: Roles, kroot: nat, procs: Table, building: set<nat>, i: nat,
                   v: nat, f: nat)
    requires TreeOk(mem0, role0, kroot) && SpacesOk(role0, kroot, procs, building) && HeapsOk(mem0, procs)
    requires i < |procs| && procs[i].Some? && procs[i].value.userTable.Some? && HEAP_VP <= v < HEAP_END_VP
    requires
      var root := procs[i].value.pageTable;
      && Mapped(mem0, mem, role0, root, v, f, 1, PERM_DATA) && Grew(mem0, role0, mem, role, root, {})
      && f in mem && mem[f] == ZEROS
    ensures
      var root := procs[i].value.pageTable;
      && View(mem, root) == View(mem0, root)[v := Leaf(ZEROS, PERM_DATA)] && HeapsOk(mem, procs)
      && forall j :: 0 <= j < |procs| && j != i && procs[j].Some? && procs[j].value.userTable.Some? ==>
           View(mem, procs[j].value.pageTable) == View(mem0, procs[j].value.pageTable)
  {
    var root := procs[i].value.pageTable;
    SlotOk(role0, kroot, procs, building, i);
    ViewFresh(mem0, role0, mem, role, kroot, root, v, f, ZEROS, PERM_DATA, {});
    forall j | 0 <= j < |procs| && j != i && procs[j].Some? && procs[j].value.userTable.Some?
      ensures View(mem, procs[j].value.pageTable) == View(mem0, procs[j].value.pageTable)
    {
      assert ProcOk(role0, kroot, procs[j].value);
      assert Uses(procs[i], root) && !Uses(procs[j], root);
      GrewView(mem0, role0, kroot, mem, role, root, v, f, procs[j].value.pageTable);
    }
    hide View, SpacesOk, TreeOk;
    assert HeapOk(View(mem0, root));
  }

  lemma GrewView(mem0: Mem, role0: Roles, kroot: nat, mem: Mem, role: Roles, root: nat, v: nat, f: nat, r: nat)
    requires TreeOk(mem0, role0, kroot) && r in role0 && role0[r].Root? && r != kroot && r != root
    requires Mapped(mem0, mem, role0, root, v, f, 1, PERM_DATA) && Grew(mem0, role0, mem, role, root, {})
    ensures View(mem, r) == View(mem0, r)
  {
    forall u: nat | InUser(u) ensures Lookup(mem, r, u) == Lookup(mem0, r, u) {
    }
    forall u: nat | InUser(u) && Lookup(mem0, r, u).Some?
      ensures PageAt(mem, Ppn(Lookup(mem0, r, u).value)) == PageAt(mem0, Ppn(Lookup(mem0, r, u).value))
    {
      UserLeaf(mem0, role0, kroot, r, u);
    }
    hide Lookup, Ppn, PermOf, PageAt, TreeOk;
  }

  function KernelThread(pid: nat, kroot: nat): Process
  {
    Process(pid, Runnable, kroot, None, 0, 0, 0, 0, NO_FDS, None)
  }

  /** The record and the memory of a process that is about to run a program: the whole image lies from its entry point
      on, in pages user code can run; its stack pointer is the end of a page user code can read and write; its heap is
      empty and above all its pages; and it is no forked child. */
  ghost predicate StartsProgram(p: Process, view: map<nat, Leaf>, image: seq<nat>)
  {
    && (forall n: nat :: n < |image| ==> EntryByte(p.entry, view, image, n))
    && 0 < p.sp && p.sp % 4096 == 0
    && (var u := (p.sp - 1) / 4096;
        u in view && HasR(view[u].perm) && HasW(view[u].perm) && HasU(view[u].perm))
    && p.heapBase == p.heapBrk && p.heapBase % 4096 == 0 && (forall u :: u in view ==> (u + 1) * 4096 <= p.heapBase)
    && p.forkFrame.None?
  }

  ghost predicate EntryByte(entry: nat, view: map<nat, Leaf>, image: seq<nat>, n: nat)
    requires n < |image|
  {
    var u := (entry + n) / 4096;
    u in view && HasX(view[u].perm) && HasU(view[u].perm) && ByteAt(view[u].page, (entry + n) % 4096) == image[n]
  }

  lemma FreshStarts(p: Process, image: seq<nat>)
    requires LoadableImage(image) && IsImage(image)
    requires p == Fresh(p.pid, p.pageTable).(state := p.state, fds := p.fds)
    ensures StartsProgram(p, ImageView(image), image)
  {
    hide ImageView, HasR, HasW, HasX, HasU, ByteAt;
    ImageShown(image);
    LoadableMeans(image);
    var view := ImageView(image);
    forall n: nat | n < |image| ensures EntryByte(p.entry, view, image, n) {
      assert HasText(view, image, n);
      assert (0x4000_0000 + n) % 4096 == n % 4096;
    }
    forall u | u in view ensures (u + 1) * 4096 <= p.heapBase {
    }
  }

  /** A user process about to start its program from the beginning. */
  function Fresh(pid: nat, table: nat): Process
  {
    Process(pid, Runnable, table, Some(table), USER_TEXT, USER_STACK_TOP, HEAP_BASE, HEAP_BASE, NO_FDS, None)
  }
}
