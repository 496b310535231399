/**
 The kernel page table (src/vm.rs:120-186): identity mappings with least privilege per section.
 */
module KernelTable {
  import opened Options
  import opened PageTables
  import opened Phys
  import opened Sv39

  const UART_VP := 0x1_0000
  const PLIC_VP := 0xc000
  const PLIC_PAGES := 0x400
  const TOP_VP := 0x8_8000

  const PERM_R := PTE_R
  const PERM_RW := PTE_R + PTE_W
  const PERM_RX := PTE_R + PTE_X

  /** The section boundaries of the linker script, as page numbers. */
  datatype Sections = Sections(textStart: nat, textEnd: nat, userStart: nat, userEnd: nat,
                               rodataStart: nat, rodataEnd: nat, dataStart: nat, kernelEnd: nat)
  {
    /** linker.ld lays the sections out in this order from 0x8020_0000, each page-aligned. */
    predicate Ordered()
    {
      && 0x8_0200 <= textStart < textEnd <= userStart <= userEnd <= rodataStart
      && rodataStart < rodataEnd <= dataStart < kernelEnd < TOP_VP
    }

    /** What page `v` is mapped with, if it is mapped. */
    function PermFor(v: nat): Option<nat>
    {
      if v == UART_VP || PLIC_VP <= v < PLIC_VP + PLIC_PAGES then Some(PERM_RW)
      else if textStart <= v < textEnd then Some(PERM_RX)
      else if userStart <= v < userEnd || rodataStart <= v < rodataEnd then Some(PERM_R)
      else if dataStart <= v < TOP_VP then Some(PERM_RW)
      else None
    }
  }

  /** What the kernel may do with page `v`, by the linker's sections and the devices' addresses. */
  predicate SectionAllows(s: Sections, v: nat, acc: Access)
  {
    var writable := v == 0x1_0000 || 0xc000 <= v < 0xc400 || s.dataStart <= v < 0x8_8000;
    match acc
    case Fetch => s.textStart <= v < s.textEnd
    case Store => writable
    case Load =>
      || writable || s.textStart <= v < s.textEnd
      || s.userStart <= v < s.userEnd || s.rodataStart <= v < s.rodataEnd
  }

  /** The entries of the table as `kvmmake` makes it. */
  ghost predicate IsKernelMap(mem: Mem, root: nat, s: Sections)
  {
    forall v: nat :: v < VP_END ==>
      Lookup(mem, root, v) == match s.PermFor(v) case None => None case Some(perm) => Some(LeafPte(v, perm))
  }

  /** Through such an entry the hardware lets the kernel do exactly what the section is for. */
  lemma EntryAccess(s: Sections, v: nat, acc: Access)
    requires s.Ordered() && v < VP_END
    ensures
      match s.PermFor(v)
      case None => !SectionAllows(s, v, acc)
      case Some(perm) =>
        Ppn(LeafPte(v, perm)) == v && (Allowed(LeafPte(v, perm), acc, Supervisor(false)) <==> SectionAllows(s, v, acc))
  {
    if s.PermFor(v).Some? {
      LeafBits(v, s.PermFor(v).value);
      hide LeafPte, Ppn;
    }
  }

  /** In any table that has these entries outside of the user gigabyte, every access of the kernel without SUM goes to
      the page itself or faults, as the section of the page says; in the user gigabyte it faults. */
  lemma KernelAccess(mem: Mem, role: Roles, kroot: nat, root: nat, s: Sections, v: nat, acc: Access)
    requires TreeOk(mem, role, kroot) && SmallPages(role) && root in role && role[root].Root? && v < VP_END
    requires s.Ordered()
    requires V2(v) != USER_SLOT ==>
               Lookup(mem, root, v) == match s.PermFor(v) case None => None case Some(perm) => Some(LeafPte(v, perm))
    ensures HwTranslate(mem, root, v, acc, Supervisor(false)) == if SectionAllows(s, v, acc) then Some(v) else None
  {
    TranslateAgrees(mem, role, kroot, root, v, acc, Supervisor(false));
    if V2(v) == USER_SLOT {
      if Lookup(mem, root, v).Some? {
        LeafWhere(mem, role, kroot, root, v);
      }
      assert 0x4_0000 <= v < 0x8_0000;
    } else {
      EntryAccess(s, v, acc);
    }
    hide TreeOk, Lookup, LeafPte, Ppn, HwTranslate;
  }

  /** A region [start, start+n) mapped onto itself. */
  datatype Region = Region(start: nat, n: nat, perm: nat)
  {
    predicate Has(v: nat) { start <= v < start + n }
    /** Below or above the gigabyte that is left to user mappings. */
    predicate OutsideUser() { start + n <= 0x4_0000 || (0x8_0000 <= start && start + n <= TOP_VP) }
  }

  predicate Covered(rs: seq<Region>, v: nat)
  {
    exists i :: 0 <= i < |rs| && rs[i].Has(v)
  }

  /** The table maps each page of each region to itself with the region's permissions, and nothing else. */
  ghost predicate KernelMaps(mem: Mem, root: nat, rs: seq<Region>)
  {
    && (forall i, v: nat :: 0 <= i < |rs| && rs[i].Has(v) && v < VP_END ==>
          Lookup(mem, root, v) == Some(LeafPte(v, rs[i].perm)))
    && (forall v: nat :: v < VP_END && !Covered(rs, v) ==> Lookup(mem, root, v).None?)
  }

  predicate Apart(rs: seq<Region>, r: Region)
  {
    forall i :: 0 <= i < |rs| ==> rs[i].start + rs[i].n <= r.start || r.start + r.n <= rs[i].start
  }

  lemma KernelMapsStep(mem: Mem, mem': Mem, role: Roles, root: nat, rs: seq<Region>, r: Region)
    requires KernelMaps(mem, root, rs) && Apart(rs, r) && root in role && role[root].Root?
    requires Mapped(mem, mem', role, root, r.start, r.start, r.n, r.perm)
    ensures KernelMaps(mem', root, rs + [r])
  {
    forall v: nat | v < VP_END && !Covered(rs + [r], v) ensures Lookup(mem', root, v).None? {
      assert (rs + [r])[|rs|] == r;
      forall i | 0 <= i < |rs| ensures !rs[i].Has(v) {
        assert (rs + [r])[i] == rs[i];
      }
    }
  }

  lemma OutsideSlot(v: nat)
    requires v < 0x4_0000 || 0x8_0000 <= v < TOP_VP
    ensures v < VP_MAX && V2(v) != USER_SLOT
  {
  }

  /** Nothing allocated is left unlinked. */
  predicate NoLoose(role: Roles)
  {
    forall p :: p in role ==> !role[p].Loose?
  }

  /** One `map_pages` call of `kvmmake`. */
  method MapRegion(k: PhysMem, root: nat, ghost rs: seq<Region>, start: nat, n: nat, perm: nat) returns (ok: bool)
    requires k.Booted() && root == k.kernelRoot && OnlyRoot(k.role, root) && KernelMaps(k.mem, root, rs)
    requires n > 0 && IsPerm(perm) && !HasU(perm) && Apart(rs, Region(start, n, perm))
    requires Region(start, n, perm).OutsideUser()
    modifies k
    ensures k.Booted() && k.kernelRoot == old(k.kernelRoot)
    ensures !ok ==> k.freePages == 0
    ensures ok ==> OnlyRoot(k.role, root) && KernelMaps(k.mem, root, rs + [Region(start, n, perm)])
    ensures ok ==> k.role.Keys == old(k.role).Keys
    ensures ok && NoLoose(old(k.role)) ==> NoLoose(k.role)
  {
    hide TreeOk, FreeOk, Mapped, Lookup, V2;
    ghost var mem0, role0 := k.mem, k.role;
    KernelRootIn(mem0, role0, root);
    ghost var r := Region(start, n, perm);
    forall v | start <= v < start + n
      ensures k.MayMap(root, v) && Lookup(k.mem, root, v).None?
      ensures FrameFor(k.role, k.kernelRoot, root, v, start + (v - start), perm)
    {
      assert r.Has(v) && !Covered(rs, v);
      OutsideSlot(v);
    }
    ok := k.MapPages(root, start, start, n, perm);
    if ok {
      KernelMapsStep(mem0, k.mem, role0, root, rs, r);
    }
  }

  method KvmMake(k: PhysMem, s: Sections) returns (ok: bool)
    requires k.Valid() && s.Ordered() && (forall p :: p in k.role ==> k.role[p].Free?)
    modifies k
    ensures !ok ==> k.Valid() && k.freePages == 0
    ensures ok ==> k.Booted() && OnlyRoot(k.role, k.kernelRoot) && NoLoose(k.role) && k.role.Keys == old(k.role).Keys
    ensures ok ==> IsKernelMap(k.mem, k.kernelRoot, s)
    ensures ok ==> forall v: nat, acc :: v < VP_END ==>
                     HwTranslate(k.mem, k.kernelRoot, v, acc, Supervisor(false)) ==
                       if SectionAllows(s, v, acc) then Some(v) else None
  {
    hide FreeOk, TreeOk, KernelMaps, Apart, SameMaps;
    var r := k.Alloc();
    if r.None? {
      return false;
    }
    var root := r.value;
    NonFreeRole(k.mem, k.role, k.free, k.head, k.freePages, root, Root);
    FirstRoot(k.mem, k.role, k.free, k.head, k.freePages, root);
    k.role := k.role[root := Root];
    k.kernelRoot := root;
    ok := MapSections(k, root, s);
    if ok {
      RegionsPerm(k.mem, root, s);
      AllAccess(k, s);
    }
  }

  lemma AllAccess(k: PhysMem, s: Sections)
    requires k.Booted() && IsKernelMap(k.mem, k.kernelRoot, s) && s.Ordered()
    ensures forall v: nat, acc :: v < VP_END ==>
              HwTranslate(k.mem, k.kernelRoot, v, acc, Supervisor(false)) ==
                if SectionAllows(s, v, acc) then Some(v) else None
  {
    KernelRootIn(k.mem, k.role, k.kernelRoot);
    hide TreeOk, Lookup, HwTranslate, SectionAllows;
    forall v: nat, acc | v < VP_END
      ensures HwTranslate(k.mem, k.kernelRoot, v, acc, Supervisor(false)) ==
                if SectionAllows(s, v, acc) then Some(v) else None
    {
      KernelAccess(k.mem, k.role, k.kernelRoot, k.kernelRoot, s, v, acc);
    }
  }

  /** The `map_pages` calls of `kvmmake`, in order; only the section of user images may be empty, and is then
      skipped. */
  method MapSections(k: PhysMem, root: nat, s: Sections) returns (ok: bool)
    requires k.Booted() && root == k.kernelRoot && OnlyRoot(k.role, root) && KernelMaps(k.mem, root, []) && s.Ordered()
    modifies k
    ensures k.Booted() && k.kernelRoot == old(k.kernelRoot)
    ensures !ok ==> k.freePages == 0
    ensures ok ==> OnlyRoot(k.role, root) && KernelMaps(k.mem, root, Regions(s)[..7]) && k.role.Keys == old(k.role).Keys
    ensures ok && NoLoose(old(k.role)) ==> NoLoose(k.role)
  {
    hide FreeOk, TreeOk, KernelMaps, Apart, OnlyRoot, NoLoose;
    RegionsOk(s);
    var rs := Regions(s);
    assert rs[..0] == [];
    var i := 0;
    while i < 7
      invariant 0 <= i <= 7 && k.Booted() && k.kernelRoot == old(k.kernelRoot) && OnlyRoot(k.role, root)
      invariant KernelMaps(k.mem, root, rs[..i]) && k.role.Keys == old(k.role).Keys
      invariant NoLoose(old(k.role)) ==> NoLoose(k.role)
    {
      var r := rs[i];
      assert rs[..i] + [r] == rs[..i + 1];
      if r.n > 0 {
        ok := MapRegion(k, root, rs[..i], r.start, r.n, r.perm);
        if !ok {
          return;
        }
      } else {
        EmptyRegion(k.mem, root, rs[..i], r);
      }
      i := i + 1;
    }
    ok := true;
  }

  /** The calls `kvmmake` makes, in order. */
  function Regions(s: Sections): (rs: seq<Region>)
    requires s.Ordered()
    ensures |rs| == 7
  {
    [Region(UART_VP, 1, PERM_RW),
     Region(PLIC_VP, PLIC_PAGES, PERM_RW),
     Region(s.textStart, s.textEnd - s.textStart, PERM_RX),
     Region(s.userStart, s.userEnd - s.userStart, PERM_R),
     Region(s.rodataStart, s.rodataEnd - s.rodataStart, PERM_R),
     Region(s.dataStart, s.kernelEnd - s.dataStart, PERM_RW),
     Region(s.kernelEnd, TOP_VP - s.kernelEnd, PERM_RW)]
  }

  lemma RegionsOk(s: Sections)
    requires s.Ordered()
    ensures forall i :: 0 <= i < 7 ==>
        Apart(Regions(s)[..i], Regions(s)[i]) && Regions(s)[..i] + [Regions(s)[i]] == Regions(s)[..i + 1]
    ensures forall i :: 0 <= i < 7 ==>
        Regions(s)[i].OutsideUser() && IsPerm(Regions(s)[i].perm) && !HasU(Regions(s)[i].perm)
  {
  }

  lemma EmptyRegion(mem: Mem, root: nat, rs: seq<Region>, r: Region)
    requires KernelMaps(mem, root, rs) && r.n == 0
    ensures KernelMaps(mem, root, rs + [r])
  {
    forall v: nat | !Covered(rs + [r], v) ensures !Covered(rs, v) {
      forall i | 0 <= i < |rs| ensures !rs[i].Has(v) {
        assert (rs + [r])[i] == rs[i];
      }
    }
  }

  lemma RegionsPerm(mem: Mem, root: nat, s: Sections)
    requires s.Ordered() && KernelMaps(mem, root, Regions(s)[..7])
    ensures IsKernelMap(mem, root, s)
  {
    var rs := Regions(s);
    assert rs[..7] == rs;
    forall v: nat | v < VP_END
      ensures Lookup(mem, root, v) == match s.PermFor(v) case None => None case Some(perm) => Some(LeafPte(v, perm))
    {
      if s.PermFor(v).Some? {
        var i := if v == UART_VP then 0 else if v < UART_VP then 1 else if v < s.textEnd then 2
                 else if v < s.userEnd then 3 else if v < s.rodataEnd then 4 else if v < s.kernelEnd then 5 else 6;
        assert rs[i].Has(v);
      }
    }
  }

  /** A zeroed root with nothing else linked anywhere is a (kernel) tree, with no mappings. */
  lemma FirstRoot(mem: Mem, role: Roles, free: seq<nat>, head: nat, n: nat, root: nat)
    requires FreeOk(mem, role, free, head, n) && root in role && ZeroPage(mem[root])
    requires forall p :: p in role ==> role[p].Free? || role[p].Loose?
    ensures TreeOk(mem, role[root := Root], root) && OnlyRoot(role[root := Root], root) && KernelMaps(mem, root, [])
  {
  }
}
