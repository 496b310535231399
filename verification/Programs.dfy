/**
 The first instruction of a program: the record and the memory that spawn_user and exec leave (src/proc.rs:199-277),
 the entry to user mode with them (src/proc.rs:327-351), and what the hardware then fetches.
 */
module Programs {
  import opened Options
  import opened Bytes
  import opened PageTables
  import opened Phys
  import opened AddressSpaces
  import opened Builds
  import opened Sv39
  import opened Processes
  import opened UserAccess
  import opened TrapFrames
  import opened Traps

  /** The hardware fetches byte `n` of the program at `entry + n`. */
  ghost predicate Fetches(mem: Mem, root: nat, entry: nat, image: seq<nat>, n: nat)
    requires n < |image|
  {
    var f := HwUser(mem, root, entry + n, Access.Fetch);
    f.Some? && f.value in mem && ByteAt(mem[f.value], (entry + n) % 4096) == image[n]
  }

  /** User code that starts at `entry` with stack pointer `sp` runs the image: every byte of it can be fetched, and the
      whole page below `sp` can be read and written. */
  ghost predicate Runs(mem: Mem, root: nat, entry: nat, sp: nat, image: seq<nat>)
  {
    && (forall n: nat :: n < |image| ==> Fetches(mem, root, entry, image, n))
    && 4096 <= sp && sp % 16 == 0
    && forall a: nat :: sp - 4096 <= a < sp ==>
         HwUser(mem, root, a, Access.Load).Some? && HwUser(mem, root, a, Access.Store).Some?
  }

  lemma StackPage(sp: nat, a: nat)
    requires 0 < sp && sp % 4096 == 0 && sp - 4096 <= a < sp
    ensures a / 4096 == (sp - 1) / 4096
  {
  }

  lemma FetchesByte(mem: Mem, role: Roles, free: seq<nat>, head: nat, m: nat, kroot: nat, root: nat, entry: nat,
                    image: seq<nat>, n: nat)
    requires FreeOk(mem, role, free, head, m) && TreeOk(mem, role, kroot) && root in role && role[root].Root?
    requires root != kroot && n < |image| && EntryByte(entry, View(mem, root), image, n)
    ensures Fetches(mem, root, entry, image, n)
  {
    HwSeesView(mem, role, free, head, m, kroot, root, entry + n, Access.Fetch);
    InViewIff(mem, root, (entry + n) / 4096);
    hide FreeOk, View, Lookup, HwUser, HasX, HasU, ByteAt;
    ViewAt(mem, role, kroot, root, (entry + n) / 4096);
  }

  /** What the record and the memory promise, the hardware does. */
  lemma StartsRuns(mem: Mem, role: Roles, free: seq<nat>, head: nat, m: nat, kroot: nat, p: Process, image: seq<nat>)
    requires FreeOk(mem, role, free, head, m) && TreeOk(mem, role, kroot) && p.pageTable in role
    requires role[p.pageTable].Root? && p.pageTable != kroot && StartsProgram(p, View(mem, p.pageTable), image)
    ensures Runs(mem, p.pageTable, p.entry, p.sp, image)
  {
    hide FreeOk, TreeOk, View, Lookup, HwUser, HasR, HasW, HasX, HasU, ByteAt, Fetches, EntryByte;
    var view := View(mem, p.pageTable);
    forall n: nat | n < |image| ensures Fetches(mem, p.pageTable, p.entry, image, n) {
      assert EntryByte(p.entry, view, image, n);
      FetchesByte(mem, role, free, head, m, kroot, p.pageTable, p.entry, image, n);
    }
    forall a: nat | p.sp - 4096 <= a < p.sp
      ensures HwUser(mem, p.pageTable, a, Access.Load).Some? && HwUser(mem, p.pageTable, a, Access.Store).Some?
    {
      StackPage(p.sp, a);
      HwSeesView(mem, role, free, head, m, kroot, p.pageTable, a, Access.Load);
      HwSeesView(mem, role, free, head, m, kroot, p.pageTable, a, Access.Store);
    }
  }

  /** The running process, at any time before it has run, runs its program if it enters user mode at its own entry and
      stack. */
  lemma CurrentRunsProgram(pt: ProcTable, image: seq<nat>)
    requires pt.Valid() && pt.UserRuns()
    requires StartsProgram(pt.procs[pt.current.value].value, pt.Memory(pt.current.value), image)
    ensures
      var p := pt.procs[pt.current.value].value;
      pt.satp == p.pageTable && Runs(pt.phys.mem, pt.satp, p.entry, p.sp, image)
  {
    hide FreeOk, TreeOk, View, SpacesOk, PidsOk, HeapsOk, BuildsOk, KernelKept, StartsProgram, Runs;
    CurrentRuns(pt.procs, pt.current, pt.satp, pt.phys.kernelRoot);
    SlotOk(pt.phys.role, pt.phys.kernelRoot, pt.procs, Roots(pt.builds), pt.current.value);
    StartsRuns(pt.phys.mem, pt.phys.role, pt.phys.free, pt.phys.head, pt.phys.freePages, pt.phys.kernelRoot,
               pt.procs[pt.current.value].value, image);
  }

  /** user_thread_body: the first thing a spawned process does on the hart.  It runs its program. */
  method UserThreadBody(pt: ProcTable, h: Hart, kstackTop: nat, ghost image: seq<nat>)
    requires pt.Valid() && pt.UserRuns() && h.Valid()
    requires StartsProgram(pt.procs[pt.current.value].value, pt.Memory(pt.current.value), image)
    modifies h
    ensures h.Valid() && h.sscratch == kstackTop && h.sstatus / 256 % 2 == 0 && h.sstatus / 32 % 2 == 1
    ensures Runs(pt.phys.mem, pt.satp, h.sepc, h.x[SP], image)
  {
    hide ProcTable.Valid, StartsProgram, Runs;
    CurrentRunsProgram(pt, image);
    var p := pt.procs[pt.current.value].value;
    h.EnterUser(p.entry, p.sp, kstackTop);
  }

  /** exec, to its end: the new program runs on the new table. */
  method ExecProgram(pt: ProcTable, h: Hart, image: seq<nat>, kstackTop: nat) returns (ok: bool)
    requires pt.Valid() && pt.UserRuns() && h.Valid() && LoadableImage(image) && IsImage(image)
    modifies pt, pt.phys, h
    ensures !ok ==> pt.phys.freePages == 0
    ensures ok ==> pt.Valid() && h.Valid() && h.sscratch == kstackTop
    ensures ok ==> h.sstatus / 256 % 2 == 0 && h.sstatus / 32 % 2 == 1
    ensures ok ==> Runs(pt.phys.mem, pt.satp, h.sepc, h.x[SP], image)
  {
    hide ProcTable.Valid, StartsProgram, Runs, ImageView, Owner;
    ok := pt.Exec(image);
    if ok {
      CurrentRunsProgram(pt, image);
      h.EnterUser(USER_TEXT, USER_STACK_TOP, kstackTop);
    }
  }
}
