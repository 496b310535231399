/**
 What a U-mode load or store does, hardware and kernel together: translate with satp, trap on a
 page fault, retry if `service_page_fault` mapped a page, die otherwise (src/trap.rs:146-161).
 */
module UserAccess {
  import opened Options
  import opened Bytes
  import opened PageTables
  import opened Phys
  import opened UserTables
  import opened AddressSpaces
  import opened Builds
  import opened Sv39
  import opened Processes
  import opened DemandPaging

  lemma VpSplit(u: nat)
    ensures u == VpOf(V2(u), V1(u), V0(u))
  {
    assert u / 262144 == (u / 512) / 512;
  }

  /** Two private mappings of the same frame are the same mapping of the same space. */
  lemma FrameInjective(mem: Mem, role: Roles, kroot: nat, r1: nat, u1: nat, r2: nat, u2: nat)
    requires TreeOk(mem, role, kroot) && InUser(u1) && InUser(u2)
    requires r1 in role && role[r1].Root? && r1 != kroot && r2 in role && role[r2].Root? && r2 != kroot
    requires Lookup(mem, r1, u1).Some? && Lookup(mem, r2, u2).Some?
    requires Ppn(Lookup(mem, r1, u1).value) == Ppn(Lookup(mem, r2, u2).value)
    ensures r1 == r2 && u1 == u2
  {
    UserLeaf(mem, role, kroot, r1, u1);
    UserLeaf(mem, role, kroot, r2, u2);
    LowOfRole(mem, role, kroot, r1, u1);
    LowOfRole(mem, role, kroot, r2, u2);
    VpSplit(u1);
    VpSplit(u2);
    UserSlot(u1);
    UserSlot(u2);
    hide TreeOk, Lookup, LowOf, Ppn, PermOf, HasU, LeafPte, IsPerm, V0, V1, V2, Ptr, IsValid;
  }

  /** A store through one mapping is seen there and nowhere else: not at another address of the same
      space, and not in any other space. */
  lemma StoreIsolated(mem: Mem, role: Roles, kroot: nat, root: nat, u: nat, page: seq<nat>, r: nat)
    requires TreeOk(mem, role, kroot) && InUser(u) && root in role && role[root].Root? && root != kroot
    requires Lookup(mem, root, u).Some? && |page| == WORDS
    requires r in role && role[r].Root? && r != kroot
    ensures
      var e := Lookup(mem, root, u).value;
      var mem' := mem[Ppn(e) := page];
      && TreeOk(mem', role, kroot)
      && View(mem', r) == if r == root then View(mem, r)[u := Leaf(page, PermOf(e))] else View(mem, r)
  {
    var e := Lookup(mem, root, u).value;
    UserLeaf(mem, role, kroot, root, u);
    var mem' := mem[Ppn(e) := page];
    DataWriteSame(mem, role, kroot, Ppn(e), page);
    forall v: nat | InUser(v) ensures Lookup(mem', r, v) == Lookup(mem, r, v) {
    }
    forall v: nat | InUser(v) && Lookup(mem, r, v).Some? && !(r == root && v == u)
      ensures PageAt(mem', Ppn(Lookup(mem, r, v).value)) == PageAt(mem, Ppn(Lookup(mem, r, v).value))
    {
      if Ppn(Lookup(mem, r, v).value) == Ppn(e) {
        FrameInjective(mem, role, kroot, root, u, r, v);
      }
    }
    hide TreeOk, Lookup, Ppn, PermOf;
  }

  /** U-mode translation of a byte address with the active table. */
  function HwUser(mem: Mem, satp: nat, va: nat, acc: Access): Option<nat>
  {
    if Canonical(va) then HwTranslate(mem, satp, PageOf(va), acc, User) else None
  }

  predicate PermAllows(perm: nat, acc: Access)
  {
    match acc case Load => HasR(perm) case Store => HasW(perm) case Fetch => HasX(perm)
  }

  /** The hardware lets user code through exactly where the view has a page that permits the access. */
  lemma HwSeesView(mem: Mem, role: Roles, free: seq<nat>, head: nat, n: nat, kroot: nat, root: nat, va: nat,
                   acc: Access)
    requires FreeOk(mem, role, free, head, n) && TreeOk(mem, role, kroot) && root in role && role[root].Root?
    requires root != kroot
    ensures
      var u := va / 4096;
      HwUser(mem, root, va, acc) ==
        if u in View(mem, root) && PermAllows(View(mem, root)[u].perm, acc)
        then Some(Ppn(Lookup(mem, root, u).value)) else None
  {
    var u := va / 4096;
    InViewIff(mem, root, u);
    if Canonical(va) {
      PageOfCanonical(va);
      HwSeesPage(mem, role, kroot, root, PageOf(va), acc);
      UserSlot(PageOf(va));
    }
    hide TreeOk, FreeOk, HwTranslate, Lookup, View, Ppn, HasR, HasW, HasX, V2, PageOf;
  }

  lemma HwSeesPage(mem: Mem, role: Roles, kroot: nat, root: nat, u: nat, acc: Access)
    requires TreeOk(mem, role, kroot) && SmallPages(role) && root in role && role[root].Root? && root != kroot
    requires u < VP_END
    ensures
      HwTranslate(mem, root, u, acc, User) ==
        if u in View(mem, root) && PermAllows(View(mem, root)[u].perm, acc)
        then Some(Ppn(Lookup(mem, root, u).value)) else None
  {
    TranslateAgrees(mem, role, kroot, root, u, acc, User);
    UserSlot(u);
    InViewIff(mem, root, u);
    if Lookup(mem, root, u).Some? {
      var e := Lookup(mem, root, u).value;
      LeafShape(mem, role, kroot, root, u);
      LeafWhere(mem, role, kroot, root, u);
      LeafBits(Ppn(e), PermOf(e));
      PermHasR(PermOf(e));
    }
    hide TreeOk, HwTranslate, LeafPte, Ppn, PermOf, HasR, HasW, HasX, HasU, V2;
  }

  lemma PermHasR(perm: nat)
    requires IsPerm(perm)
    ensures HasR(perm)
  {
  }

  lemma UserSlot(u: nat)
    ensures InUser(u) <==> V2(u) == USER_SLOT
  {
  }

  // --- the access, with demand paging ---

  /** The heap window of a process as the lazy machine sees it. */
  function HeapOf(view: map<nat, Leaf>, brk: nat): Lazy
  {
    Lazy(brk, map u | u in view && HEAP_VP <= u < HEAP_END_VP :: view[u].page)
  }

  /** A page of the view can be touched, or appears when it is. */
  predicate Reachable(view: map<nat, Leaf>, p: Process, va: nat, acc: Access)
  {
    if va / 4096 in view then PermAllows(view[va / 4096].perm, acc) else p.heapBase <= va < p.heapBrk
  }

  function Faulted(view: map<nat, Leaf>, va: nat): map<nat, Leaf>
  {
    if va / 4096 in view then view else view[va / 4096 := Leaf(ZEROS, PERM_DATA)]
  }

  datatype Resolved = At(page: nat) | Dead | Panicked

  /** Translate for user code, taking at most one page fault. */
  method Resolve(pt: ProcTable, va: nat, acc: Access) returns (r: Resolved)
    requires pt.Valid() && pt.UserRuns() && !acc.Fetch?
    modifies pt.phys
    ensures r != Panicked ==> pt.Valid() && pt.OthersKept(pt.current.value)
    ensures r == Panicked ==> 0 < old(pt.phys.freePages) < 3 && pt.phys.freePages == 0
    ensures pt.phys.freePages + 3 >= old(pt.phys.freePages)
    ensures r == Dead ==> unchanged(pt.phys)
    ensures r == Dead <==>
              var view := old(pt.Memory(pt.current.value));
              || !Reachable(view, pt.procs[pt.current.value].value, va, acc)
              || (va / 4096 !in view && old(pt.phys.freePages) == 0)
    ensures r.At? ==>
              && pt.Memory(pt.current.value) == Faulted(old(pt.Memory(pt.current.value)), va)
              && var l := Lookup(pt.phys.mem, pt.satp, va / 4096);
                 InUser(va / 4096) && l.Some? && r.page == Ppn(l.value)
  {
    hide TreeOk, FreeOk, KernelKept, BuildsOk, Roots, SpacesOk, PidsOk, RunOk, View, Lookup, HwUser;
    ghost var i := pt.current.value;
    CurrentRuns(pt.procs, pt.current, pt.satp, pt.phys.kernelRoot);
    SlotOk(pt.phys.role, pt.phys.kernelRoot, pt.procs, Roots(pt.builds), i);
    HwSeesView(pt.phys.mem, pt.phys.role, pt.phys.free, pt.phys.head, pt.phys.freePages, pt.phys.kernelRoot, pt.satp,
               va, acc);
    InViewIff(pt.phys.mem, pt.satp, va / 4096);
    var f := HwUser(pt.phys.mem, pt.satp, va, acc);
    if f.Some? {
      return At(f.value);
    }
    assert HeapOk(View(pt.phys.mem, pt.satp));
    var fault := pt.ServicePageFault(va);
    if fault == Panic {
      return Panicked;
    }
    if fault == Refused {
      return Dead;
    }
    SlotOk(pt.phys.role, pt.phys.kernelRoot, pt.procs, Roots(pt.builds), i);
    HwSeesView(pt.phys.mem, pt.phys.role, pt.phys.free, pt.phys.head, pt.phys.freePages, pt.phys.kernelRoot, pt.satp,
               va, acc);
    InViewIff(pt.phys.mem, pt.satp, va / 4096);
    f := HwUser(pt.phys.mem, pt.satp, va, acc);
    return At(f.value);
  }

  /** A byte load by user code. */
  method UserLoad(pt: ProcTable, va: nat) returns (r: Option<Out>)
    requires pt.Valid() && pt.UserRuns()
    modifies pt.phys
    ensures r.None? ==> 0 < old(pt.phys.freePages) < 3 && pt.phys.freePages == 0
    ensures pt.phys.freePages + 3 >= old(pt.phys.freePages)
    ensures r.Some? ==> pt.Valid() && pt.OthersKept(pt.current.value)
    ensures
      var view, p := old(pt.Memory(pt.current.value)), pt.procs[pt.current.value].value;
      if Reachable(view, p, va, Access.Load) && (va / 4096 in view || old(pt.phys.freePages) > 0)
      then r.Some? ==>
        && pt.Memory(pt.current.value) == Faulted(view, va)
        && r == Some(Value(ByteAt(Faulted(view, va)[va / 4096].page, va % 4096)))
      else r == Some(Killed) && unchanged(pt.phys)
    ensures
      var view, p := old(pt.Memory(pt.current.value)), pt.procs[pt.current.value].value;
      HEAP_BASE <= va < HEAP_MAX && old(pt.phys.freePages) >= 3 ==>
        && r == Some(LazyStep(HeapOf(view, p.heapBrk), Op.Load(va)).1)
        && HeapOf(pt.Memory(pt.current.value), p.heapBrk) == LazyStep(HeapOf(view, p.heapBrk), Op.Load(va)).0
  {
    hide TreeOk, FreeOk, KernelKept, BuildsOk, Roots, SpacesOk, PidsOk, RunOk, View, Lookup;
    ghost var i, view := pt.current.value, pt.Memory(pt.current.value);
    ghost var p := pt.procs[i].value;
    CurrentRuns(pt.procs, pt.current, pt.satp, pt.phys.kernelRoot);
    SlotOk(pt.phys.role, pt.phys.kernelRoot, pt.procs, Roots(pt.builds), i);
    assert HeapOk(view);
    if HEAP_BASE <= va < HEAP_MAX {
      LazyLoad(view, p, va);
    }
    var f := Resolve(pt, va, Access.Load);
    match f
    case Panicked => return None;
    case Dead => return Some(Killed);
    case At(page) =>
      SlotOk(pt.phys.role, pt.phys.kernelRoot, pt.procs, Roots(pt.builds), i);
      ViewAt(pt.phys.mem, pt.phys.role, pt.phys.kernelRoot, pt.satp, va / 4096);
      return Some(Value(ByteAt(pt.phys.mem[page], va % 4096)));
  }

  lemma ViewAt(mem: Mem, role: Roles, kroot: nat, root: nat, u: nat)
    requires TreeOk(mem, role, kroot) && root in role && role[root].Root? && root != kroot && InUser(u)
    requires Lookup(mem, root, u).Some?
    ensures
      var e := Lookup(mem, root, u).value;
      && Ppn(e) in mem && |mem[Ppn(e)]| == WORDS
      && u in View(mem, root) && View(mem, root)[u] == Leaf(mem[Ppn(e)], PermOf(e))
  {
    UserLeaf(mem, role, kroot, root, u);
  }

  /** Seen through the heap window, a load is a step of the lazy machine. */
  lemma LazyLoad(view: map<nat, Leaf>, p: Process, va: nat)
    requires HeapOk(view) && p.heapBase == HEAP_BASE && HEAP_BASE <= p.heapBrk <= HEAP_MAX
    requires HEAP_BASE <= va < HEAP_MAX
    ensures
      var h := HeapOf(view, p.heapBrk);
      LazyStep(h, Op.Load(va)) ==
        if Reachable(view, p, va, Access.Load) then
          (HeapOf(Faulted(view, va), p.heapBrk), Value(ByteAt(Faulted(view, va)[va / 4096].page, va % 4096)))
        else (h, Killed)
  {
    var h := HeapOf(view, p.heapBrk);
    if Reachable(view, p, va, Access.Load) {
      assert Touch(h, va).value.pages == HeapOf(Faulted(view, va), p.heapBrk).pages;
    }
  }

  /** The view after a byte store. */
  function WithByte(view: map<nat, Leaf>, va: nat, b: nat): map<nat, Leaf>
    requires b < 256
  {
    if va / 4096 !in view then view else
    var l := view[va / 4096];
    view[va / 4096 := Leaf(SetByte(l.page, va % 4096, b), l.perm)]
  }

  /** The store itself, once the address is translated. */
  method Poke(pt: ProcTable, page: nat, va: nat, b: nat)
    requires pt.Valid() && pt.UserRuns() && b < 256 && InUser(va / 4096)
    requires var l := Lookup(pt.phys.mem, pt.satp, va / 4096); l.Some? && page == Ppn(l.value)
    modifies pt.phys
    ensures pt.Valid() && pt.OthersKept(pt.current.value)
    ensures va / 4096 in old(pt.Memory(pt.current.value)) && pt.phys.freePages == old(pt.phys.freePages)
    ensures pt.Memory(pt.current.value) == WithByte(old(pt.Memory(pt.current.value)), va, b)
  {
    hide TreeOk, FreeOk, KernelKept, BuildsOk, Roots, SpacesOk, PidsOk, RunOk, View, Lookup, SetByte;
    ghost var i := pt.current.value;
    CurrentRuns(pt.procs, pt.current, pt.satp, pt.phys.kernelRoot);
    SlotOk(pt.phys.role, pt.phys.kernelRoot, pt.procs, Roots(pt.builds), i);
    ViewAt(pt.phys.mem, pt.phys.role, pt.phys.kernelRoot, pt.satp, va / 4096);
    UserLeaf(pt.phys.mem, pt.phys.role, pt.phys.kernelRoot, pt.satp, va / 4096);
    NotBuilding(pt.phys.role, pt.phys.kernelRoot, pt.procs, pt.builds, i);
    var content := SetByte(pt.phys.mem[page], va % 4096, b);
    StoreViews(pt.phys.mem, pt.phys.role, pt.phys.kernelRoot, pt.procs, Roots(pt.builds), i, va / 4096, content);
    StoreBuilds(pt.phys.mem, pt.phys.role, pt.phys.kernelRoot, pt.satp, pt.builds, page, content);
    DataKept(pt.boot, pt.phys.mem, pt.phys.role, pt.phys.kernelRoot, page, content);
    NonFreeWrite(pt.phys.mem, pt.phys.role, pt.phys.free, pt.phys.head, pt.phys.freePages, page, content);
    pt.phys.mem := pt.phys.mem[page := content];
  }

  /** A byte store by user code: one byte of one page of one process changes. */
  method UserStore(pt: ProcTable, va: nat, b: nat) returns (r: Option<Out>)
    requires pt.Valid() && pt.UserRuns() && b < 256
    modifies pt.phys
    ensures r.None? ==> 0 < old(pt.phys.freePages) < 3 && pt.phys.freePages == 0
    ensures pt.phys.freePages + 3 >= old(pt.phys.freePages)
    ensures r.Some? ==> pt.Valid() && pt.OthersKept(pt.current.value)
    ensures
      var view, p := old(pt.Memory(pt.current.value)), pt.procs[pt.current.value].value;
      if Reachable(view, p, va, Access.Store) && (va / 4096 in view || old(pt.phys.freePages) > 0)
      then r.Some? ==> r == Some(Stored) && pt.Memory(pt.current.value) == WithByte(Faulted(view, va), va, b)
      else r == Some(Killed) && unchanged(pt.phys)
    ensures
      var view, p := old(pt.Memory(pt.current.value)), pt.procs[pt.current.value].value;
      HEAP_BASE <= va < HEAP_MAX && old(pt.phys.freePages) >= 3 ==>
        && r == Some(LazyStep(HeapOf(view, p.heapBrk), Op.Store(va, b)).1)
        && HeapOf(pt.Memory(pt.current.value), p.heapBrk) == LazyStep(HeapOf(view, p.heapBrk), Op.Store(va, b)).0
  {
    hide TreeOk, FreeOk, KernelKept, BuildsOk, Roots, SpacesOk, PidsOk, RunOk, View, Lookup, SetByte;
    ghost var i, view := pt.current.value, pt.Memory(pt.current.value);
    ghost var p := pt.procs[i].value;
    CurrentRuns(pt.procs, pt.current, pt.satp, pt.phys.kernelRoot);
    SlotOk(pt.phys.role, pt.phys.kernelRoot, pt.procs, Roots(pt.builds), i);
    assert HeapOk(view);
    if HEAP_BASE <= va < HEAP_MAX {
      LazyStore(view, p, va, b);
    }
    var f := Resolve(pt, va, Access.Store);
    match f
    case Panicked => return None;
    case Dead => return Some(Killed);
    case At(page) =>
      Poke(pt, page, va, b);
      return Some(Stored);
  }

  lemma StoreViews(mem: Mem, role: Roles, kroot: nat, procs: Table, building: set<nat>, i: nat, u: nat, page: seq<nat>)
    requires TreeOk(mem, role, kroot) && SpacesOk(role, kroot, procs, building) && HeapsOk(mem, procs) && InUser(u)
    requires |page| == WORDS
    requires i < |procs| && procs[i].Some? && procs[i].value.userTable.Some?
    requires Lookup(mem, procs[i].value.pageTable, u).Some?
    ensures
      var root := procs[i].value.pageTable;
      var e := Lookup(mem, root, u).value;
      var mem' := mem[Ppn(e) := page];
      && TreeOk(mem', role, kroot) && View(mem', root) == View(mem, root)[u := Leaf(page, PermOf(e))]
      && HeapsOk(mem', procs)
      && forall j :: 0 <= j < |procs| && j != i && procs[j].Some? && procs[j].value.userTable.Some? ==>
           View(mem', procs[j].value.pageTable) == View(mem, procs[j].value.pageTable)
  {
    var root := procs[i].value.pageTable;
    SlotOk(role, kroot, procs, building, i);
    StoreIsolated(mem, role, kroot, root, u, page, root);
    ViewAt(mem, role, kroot, root, u);
    var mem' := mem[Ppn(Lookup(mem, root, u).value) := page];
    forall j | 0 <= j < |procs| && j != i && procs[j].Some? && procs[j].value.userTable.Some?
      ensures View(mem', procs[j].value.pageTable) == View(mem, procs[j].value.pageTable)
    {
      assert ProcOk(role, kroot, procs[j].value);
      assert Uses(procs[i], root) && !Uses(procs[j], root);
      StoreIsolated(mem, role, kroot, root, u, page, procs[j].value.pageTable);
    }
    hide TreeOk, SpacesOk, View, Lookup, Ppn, PermOf;
    assert HeapOk(View(mem, root));
  }

  lemma StoreBuilds(mem: Mem, role: Roles, kroot: nat, root: nat, builds: Builds, p: nat, page: seq<nat>)
    requires TreeOk(mem, role, kroot) && BuildsOk(mem, role, kroot, builds) && Owner(role, p) == Some(root)
    requires root !in Roots(builds)
    ensures BuildsOk(mem[p := page], role, kroot, builds)
  {
    hide BuildsOk, Roots, Owner;
    assert Beside(mem, role, mem[p := page], role, root, {});
    hide TreeOk;
    BesideBuilds(mem, role, mem[p := page], role, kroot, root, builds);
  }

  lemma DataKept(boot: Mem, mem: Mem, role: Roles, kroot: nat, p: nat, page: seq<nat>)
    requires KernelKept(boot, mem, kroot) && TreeOk(mem, role, kroot) && p in role && !role[p].Table?()
    requires |page| == WORDS
    ensures KernelKept(boot, mem[p := page], kroot)
  {
    DataWriteSame(mem, role, kroot, p, page);
    var mem' := mem[p := page];
    hide Lookup;
    forall v: nat | v < VP_END ensures Lookup(mem', kroot, v) == Lookup(boot, kroot, v) {
      assert Lookup(mem', kroot, v) == Lookup(mem, kroot, v);
    }
  }

  lemma LazyStore(view: map<nat, Leaf>, p: Process, va: nat, b: nat)
    requires HeapOk(view) && p.heapBase == HEAP_BASE && HEAP_BASE <= p.heapBrk <= HEAP_MAX
    requires HEAP_BASE <= va < HEAP_MAX && b < 256
    ensures
      var h := HeapOf(view, p.heapBrk);
      LazyStep(h, Op.Store(va, b)) ==
        if Reachable(view, p, va, Access.Store)
        then (HeapOf(WithByte(Faulted(view, va), va, b), p.heapBrk), Stored) else (h, Killed)
  {
    hide SetByte;
    var h := HeapOf(view, p.heapBrk);
    if Reachable(view, p, va, Access.Store) {
      var g := Touch(h, va).value;
      assert g.pages == HeapOf(Faulted(view, va), p.heapBrk).pages;
      assert g.pages[va / 4096 := SetByte(g.pages[va / 4096], va % 4096, b)] ==
          HeapOf(WithByte(Faulted(view, va), va, b), p.heapBrk).pages;
    }
  }

  // --- whole programs ---

  /** Every access lies in the heap window. */
  predicate InWindow(ops: seq<Op>)
  {
    forall i :: 0 <= i < |ops| ==> ops[i].Sbrk? || HEAP_BASE <= ops[i].va < HEAP_MAX
  }

  /** One operation of the running process on its heap is one step of the lazy machine. */
  method HeapOp(pt: ProcTable, op: Op) returns (out: Out)
    requires pt.Valid() && pt.UserRuns() && OpOk(op) && InWindow([op]) && pt.phys.freePages >= 3
    modifies pt`procs, pt.phys
    ensures pt.Valid() && pt.UserRuns() && pt.OthersKept(pt.current.value)
    ensures pt.phys.freePages + 3 >= old(pt.phys.freePages) && |pt.procs| == |old(pt.procs)|
    ensures
      var h := old(HeapOf(pt.Memory(pt.current.value), pt.procs[pt.current.value].value.heapBrk));
      && out == LazyStep(h, op).1
      && HeapOf(pt.Memory(pt.current.value), pt.procs[pt.current.value].value.heapBrk) == LazyStep(h, op).0
  {
    hide ProcTable.Valid, View;
    assert [op][0] == op;
    match op {
      case Sbrk(delta) =>
        var r := pt.Sbrk(delta);
        out := Value(r);
      case Load(va) =>
        var r := UserLoad(pt, va);
        out := r.value;
      case Store(va, b) =>
        var r := UserStore(pt, va, b);
        out := r.value;
    }
  }

  /** The running process works on its heap: system calls, loads and stores on the kernel's own tables and pages.
      While three pages are left for each operation, the outcomes are those of the lazy machine; so against an eager
      heap in the same state they agree if and only if no access is to an untouched page at or above the break. */
  method HeapProgram(pt: ProcTable, ops: seq<Op>, ghost e: Eager) returns (outs: seq<Out>)
    requires pt.Valid() && pt.UserRuns() && OpsOk(ops) && InWindow(ops) && pt.phys.freePages >= 3 * |ops|
    requires Sim(HeapOf(pt.Memory(pt.current.value), pt.procs[pt.current.value].value.heapBrk), e)
    modifies pt`procs, pt.phys
    ensures pt.Valid() && pt.UserRuns() && pt.OthersKept(pt.current.value)
    ensures
      var l := old(HeapOf(pt.Memory(pt.current.value), pt.procs[pt.current.value].value.heapBrk));
      outs == LazyRun(l, ops) && (outs == EagerRun(e, ops) <==> NoSlack(l, ops))
  {
    hide ProcTable.Valid, View, LazyStep, Sim, NoSlack, EagerRun, LazyRun, HeapOf;
    ghost var c := pt.current.value;
    ghost var l := HeapOf(pt.Memory(c), pt.procs[c].value.heapBrk);
    RunsAgree(l, e, ops);
    outs := [];
    var i := 0;
    assert ops[0..] == ops;
    while i < |ops|
      invariant 0 <= i <= |ops| && pt.Valid() && pt.UserRuns() && pt.OthersKept(c) && |pt.procs| == |old(pt.procs)|
      invariant pt.phys.freePages >= 3 * (|ops| - i)
      invariant OpsOk(ops[i..])
      invariant LazyRun(l, ops) == outs + LazyRun(HeapOf(pt.Memory(c), pt.procs[c].value.heapBrk), ops[i..])
    {
      ghost var h := HeapOf(pt.Memory(c), pt.procs[c].value.heapBrk);
      RunStep(h, ops, i);
      var out := HeapOp(pt, ops[i]);
      outs := outs + [out];
      if out.Killed? {
        return;
      }
      i := i + 1;
    }
    RunEnd(HeapOf(pt.Memory(c), pt.procs[c].value.heapBrk), ops[i..]);
  }

  /** A process starts with an empty heap, so the theorems about whole runs from EMPTY_LAZY are about it. */
  lemma FreshHeap(image: seq<nat>)
    requires LoadableImage(image)
    ensures HeapOf(ImageView(image), HEAP_BASE) == EMPTY_LAZY && Sim(EMPTY_LAZY, EMPTY_EAGER)
  {
    forall u | u in ImageView(image) ensures !(HEAP_VP <= u < HEAP_END_VP) {
    }
  }

  lemma RunEnd(h: Lazy, ops: seq<Op>)
    requires ops == []
    ensures LazyRun(h, ops) == []
  {
  }

  lemma RunStep(h: Lazy, ops: seq<Op>, i: nat)
    requires i < |ops| && OpsOk(ops)
    ensures OpsOk(ops[i..]) && OpsOk(ops[i + 1..])
    ensures
      var (h', out) := LazyStep(h, ops[i]);
      LazyRun(h, ops[i..]) == [out] + if out.Killed? then [] else LazyRun(h', ops[i + 1..])
  {
    assert ops[i..][1..] == ops[i + 1..] && ops[i..][0] == ops[i];
  }
}
