/**
 Copies across the user boundary (src/syscall.rs:45-99): first prove every touched page is the
 caller's, then touch it with SUM set.
 */
module UserCopy {
  import opened Options
  import opened Bytes
  import opened PageTables
  import opened Phys
  import opened UserTables
  import opened AddressSpaces
  import opened Builds
  import opened Sv39
  import opened Processes
  import opened UserAccess

  const VA_MAX := 0x40_0000_0000

  /** No wrap, within the Sv39 half, and every touched page in the caller's view (writable, if asked). */
  ghost predicate Accepts(view: map<nat, Leaf>, ptr: nat, len: nat, write: bool)
  {
    && ptr + len <= USIZE_MAX && ptr + len <= VA_MAX
    && forall u: nat :: ptr / 4096 <= u && u * 4096 < ptr + len ==> PageOk(view, u, write)
  }

  predicate PageOk(view: map<nat, Leaf>, u: nat, write: bool)
  {
    u in view && (write ==> HasW(view[u].perm))
  }

  function ViewByte(view: map<nat, Leaf>, va: nat): nat
  {
    if va / 4096 in view then ByteAt(view[va / 4096].page, va % 4096) else 0
  }

  /** The pages with U are exactly the pages of the view. */
  lemma UserPages(mem: Mem, role: Roles, free: seq<nat>, head: nat, n: nat, kroot: nat, root: nat, u: nat)
    requires FreeOk(mem, role, free, head, n) && TreeOk(mem, role, kroot) && root in role && role[root].Root?
    requires root != kroot && u < VP_END
    ensures
      var l := Lookup(mem, root, u);
      && (u in View(mem, root) <==> l.Some? && HasU(l.value))
      && (l.Some? && HasU(l.value) ==> InUser(u) && HasW(l.value) == HasW(View(mem, root)[u].perm))
  {
    UserSlot(u);
    InViewIff(mem, root, u);
    if Lookup(mem, root, u).Some? {
      LeafWhere(mem, role, kroot, root, u);
      LeafShape(mem, role, kroot, root, u);
      LeafBits(Ppn(Lookup(mem, root, u).value), PermOf(Lookup(mem, root, u).value));
    }
    hide TreeOk, FreeOk, KernelKept, BuildsOk, Roots, Lookup, LeafPte, HasU, HasW, HasR, HasX, Ppn, PermOf, IsValid, V2;
  }

  /** With SUM the kernel itself can make the access, on the same frame. */
  lemma KernelMay(mem: Mem, role: Roles, free: seq<nat>, head: nat, n: nat, kroot: nat, root: nat, u: nat)
    requires FreeOk(mem, role, free, head, n) && TreeOk(mem, role, kroot) && root in role && role[root].Root?
    requires root != kroot
    requires u in View(mem, root)
    ensures
      var e := Lookup(mem, root, u);
      && u < VP_MAX && e.Some? && InUser(u)
      && HwTranslate(mem, root, u, Access.Load, Supervisor(true)) == Some(Ppn(e.value))
      && (HasW(View(mem, root)[u].perm) ==>
            HwTranslate(mem, root, u, Access.Store, Supervisor(true)) == Some(Ppn(e.value)))
  {
    InViewIff(mem, root, u);
    TranslateAgrees(mem, role, kroot, root, u, Access.Load, Supervisor(true));
    TranslateAgrees(mem, role, kroot, root, u, Access.Store, Supervisor(true));
    LeafShape(mem, role, kroot, root, u);
    LeafBits(Ppn(Lookup(mem, root, u).value), PermOf(Lookup(mem, root, u).value));
    hide TreeOk, FreeOk, KernelKept, BuildsOk, Roots, Lookup, HwTranslate, LeafPte, HasU, HasW, HasR, HasX, Ppn, PermOf,
         IsValid;
  }

  /** A byte is in a page that is fit for the copy if and only if user code could make the access itself. */
  lemma ByteOk(mem: Mem, role: Roles, free: seq<nat>, head: nat, n: nat, kroot: nat, root: nat, a: nat, write: bool)
    requires FreeOk(mem, role, free, head, n) && TreeOk(mem, role, kroot) && root in role && role[root].Root?
    requires root != kroot
    ensures PageOk(View(mem, root), a / 4096, write) <==>
              HwUser(mem, root, a, if write then Access.Store else Access.Load).Some?
    ensures PageOk(View(mem, root), a / 4096, write) ==> a < VA_MAX
  {
    var u := a / 4096;
    HwSeesView(mem, role, free, head, n, kroot, root, a, if write then Access.Store else Access.Load);
    InViewIff(mem, root, u);
    if u in View(mem, root) {
      LeafShape(mem, role, kroot, root, u);
      PermHasR(PermOf(Lookup(mem, root, u).value));
    }
    hide TreeOk, FreeOk, Lookup, HwUser, LeafPte, HasU, HasW, HasR, HasX, Ppn, PermOf, IsValid;
  }

  /** The check says what it is for: a range with bytes in it is accepted if and only if user code could make every
      access itself.  An empty range is accepted if and only if it starts a page or user code could access where it
      starts. */
  lemma AcceptsMeans(mem: Mem, role: Roles, free: seq<nat>, head: nat, n: nat, kroot: nat, root: nat, ptr: nat,
                     len: nat, write: bool)
    requires FreeOk(mem, role, free, head, n) && TreeOk(mem, role, kroot) && root in role && role[root].Root?
    requires root != kroot
    ensures
      var acc := if write then Access.Store else Access.Load;
      Accepts(View(mem, root), ptr, len, write) <==>
        if len == 0 then ptr <= VA_MAX && (ptr % 4096 == 0 || HwUser(mem, root, ptr, acc).Some?)
        else forall a: nat :: ptr <= a < ptr + len ==> HwUser(mem, root, a, acc).Some?
  {
    hide TreeOk, FreeOk, View, HwUser, PageOk;
    var view, acc := View(mem, root), if write then Access.Store else Access.Load;
    forall a: nat ensures PageOk(view, a / 4096, write) <==> HwUser(mem, root, a, acc).Some? {
      ByteOk(mem, role, free, head, n, kroot, root, a, write);
    }
    RangePages(view, ptr, len, write);
    if len > 0 {
      ByteOk(mem, role, free, head, n, kroot, root, ptr + len - 1, write);
      if forall a: nat :: ptr <= a < ptr + len ==> HwUser(mem, root, a, acc).Some? {
        assert HwUser(mem, root, ptr + len - 1, acc).Some?;
      }
    }
  }

  /** The pages of a range are those of its bytes, and that of its start if it is empty and does not start a page. */
  lemma RangePages(view: map<nat, Leaf>, ptr: nat, len: nat, write: bool)
    ensures (forall u: nat :: ptr / 4096 <= u && u * 4096 < ptr + len ==> PageOk(view, u, write)) <==>
              if len == 0 then ptr % 4096 == 0 || PageOk(view, ptr / 4096, write)
              else forall a: nat :: ptr <= a < ptr + len ==> PageOk(view, a / 4096, write)
  {
    hide PageOk;
    forall u: nat | ptr / 4096 <= u && u * 4096 < ptr + len && len > 0
      ensures exists a: nat :: ptr <= a < ptr + len && a / 4096 == u
    {
      var a := if u * 4096 < ptr then ptr else u * 4096;
      assert ptr <= a < ptr + len && a / 4096 == u;
    }
  }

  /** The page-checking loop both directions share. */
  method CheckPages(pt: ProcTable, ptr: nat, len: nat, write: bool) returns (ok: bool)
    requires pt.Valid() && pt.UserRuns()
    modifies pt.phys
    ensures unchanged(pt.phys)
    ensures ok <==> Accepts(pt.Memory(pt.current.value), ptr, len, write)
  {
    hide TreeOk, FreeOk, KernelKept, BuildsOk, Roots, SpacesOk, PidsOk, RunOk, View, Lookup, HasU, HasW;
    if ptr + len > USIZE_MAX {
      return false;
    }
    var end := ptr + len;
    if end > VA_MAX {
      return false;
    }
    CurrentRuns(pt.procs, pt.current, pt.satp, pt.phys.kernelRoot);
    SlotOk(pt.phys.role, pt.phys.kernelRoot, pt.procs, Roots(pt.builds), pt.current.value);
    var root := pt.procs[pt.current.value].value.pageTable;
    ghost var view := pt.Memory(pt.current.value);
    var u := ptr / 4096;
    while u * 4096 < end
      invariant ptr / 4096 <= u && unchanged(pt.phys)
      invariant forall w: nat :: ptr / 4096 <= w < u && w * 4096 < end ==> PageOk(view, w, write)
      decreases end - u * 4096
    {
      UserPages(pt.phys.mem, pt.phys.role, pt.phys.free, pt.phys.head, pt.phys.freePages, pt.phys.kernelRoot, root, u);
      var pte := pt.phys.Translate(root, u);
      if pte.None? || !HasU(pte.value) || (write && !HasW(pte.value)) {
        assert !PageOk(view, u, write);
        return false;
      }
      u := u + 1;
    }
    return true;
  }

  method CopyFromUser(pt: ProcTable, ptr: nat, len: nat) returns (buf: Option<seq<nat>>)
    requires pt.Valid() && pt.UserRuns()
    modifies pt.phys
    ensures unchanged(pt.phys)
    ensures buf.Some? <==> Accepts(pt.Memory(pt.current.value), ptr, len, false)
    ensures buf.Some? ==> |buf.value| == len
    ensures buf.Some? ==>
              forall i :: 0 <= i < len ==> buf.value[i] == ViewByte(pt.Memory(pt.current.value), ptr + i)
  {
    hide TreeOk, FreeOk, KernelKept, BuildsOk, Roots, SpacesOk, PidsOk, RunOk, View, Lookup, HwTranslate;
    var ok := CheckPages(pt, ptr, len, false);
    if !ok {
      return None;
    }
    CurrentRuns(pt.procs, pt.current, pt.satp, pt.phys.kernelRoot);
    SlotOk(pt.phys.role, pt.phys.kernelRoot, pt.procs, Roots(pt.builds), pt.current.value);
    ghost var view := pt.Memory(pt.current.value);
    var bytes: seq<nat> := [];
    var i := 0;
    while i < len
      invariant 0 <= i <= len && |bytes| == i && unchanged(pt.phys)
      invariant forall j :: 0 <= j < i ==> bytes[j] == ViewByte(view, ptr + j)
    {
      assert PageOk(view, (ptr + i) / 4096, false);
      KernelMay(pt.phys.mem, pt.phys.role, pt.phys.free, pt.phys.head, pt.phys.freePages, pt.phys.kernelRoot, pt.satp,
                (ptr + i) / 4096);
      ViewAt(pt.phys.mem, pt.phys.role, pt.phys.kernelRoot, pt.satp, (ptr + i) / 4096);
      var f := HwTranslate(pt.phys.mem, pt.satp, (ptr + i) / 4096, Access.Load, Supervisor(true)).value;
      bytes := bytes + [ByteAt(pt.phys.mem[f], (ptr + i) % 4096)];
      i := i + 1;
    }
    return Some(bytes);
  }

  predicate IsBytes(src: seq<nat>) { forall i :: 0 <= i < |src| ==> src[i] < 256 }

  /** The view after storing `src` at `ptr`, byte by byte. */
  function StoreAll(view: map<nat, Leaf>, ptr: nat, src: seq<nat>): (r: map<nat, Leaf>)
    requires IsBytes(src)
    ensures r.Keys == view.Keys
  {
    if src == [] then view else
    var n := |src| - 1;
    WithByte(StoreAll(view, ptr, src[..n]), ptr + n, src[n])
  }

  ghost predicate WholePages(view: map<nat, Leaf>) { forall u :: u in view ==> |view[u].page| == WORDS }

  /** Every page touched by the range is in the view. */
  ghost predicate Covers(view: map<nat, Leaf>, ptr: nat, len: nat)
  {
    forall a: nat :: ptr <= a < ptr + len ==> InView(view, a)
  }

  predicate InView(view: map<nat, Leaf>, a: nat) { a / 4096 in view }

  lemma AcceptsCovers(view: map<nat, Leaf>, ptr: nat, len: nat, write: bool)
    requires Accepts(view, ptr, len, write)
    ensures Covers(view, ptr, len)
    ensures forall a: nat :: ptr <= a < ptr + len ==> PageOk(view, a / 4096, write)
  {
    forall a: nat | ptr <= a < ptr + len ensures InView(view, a) && PageOk(view, a / 4096, write) {
      assert PageOk(view, a / 4096, write);
    }
  }

  /** Exactly the bytes of the range change, to the bytes of the source. */
  lemma {:induction false} StoreAllBytes(view: map<nat, Leaf>, ptr: nat, src: seq<nat>, a: nat)
    requires IsBytes(src) && WholePages(view) && Covers(view, ptr, |src|)
    ensures WholePages(StoreAll(view, ptr, src))
    ensures ViewByte(StoreAll(view, ptr, src), a) == if ptr <= a < ptr + |src| then src[a - ptr] else ViewByte(view, a)
  {
    if src != [] {
      var n := |src| - 1;
      StoreAllBytes(view, ptr, src[..n], a);
      assert InView(view, ptr + n);
      StoredByte(StoreAll(view, ptr, src[..n]), ptr + n, src[n], a);
    }
  }

  lemma StoredByte(view: map<nat, Leaf>, va: nat, b: nat, a: nat)
    requires b < 256 && WholePages(view) && InView(view, va)
    ensures WholePages(WithByte(view, va, b))
    ensures ViewByte(WithByte(view, va, b), a) == if a == va then b else ViewByte(view, a)
  {
    if a / 4096 == va / 4096 {
      SetByteGet(view[va / 4096].page, va % 4096, b, a % 4096);
    }
  }

  /** ... and permissions stay. */
  lemma {:induction false} StoreAllPerms(view: map<nat, Leaf>, ptr: nat, src: seq<nat>)
    requires IsBytes(src)
    ensures forall u :: u in view ==> StoreAll(view, ptr, src)[u].perm == view[u].perm
  {
    if src != [] {
      StoreAllPerms(view, ptr, src[..|src| - 1]);
    }
  }

  method CopyToUser(pt: ProcTable, ptr: nat, src: seq<nat>) returns (n: Option<nat>)
    requires pt.Valid() && pt.UserRuns() && IsBytes(src)
    modifies pt.phys
    ensures pt.Valid() && pt.OthersKept(pt.current.value)
    ensures n == if old(Accepts(pt.Memory(pt.current.value), ptr, |src|, true)) then Some(|src|) else None
    ensures n.None? ==> unchanged(pt.phys)
    ensures n.Some? ==> pt.Memory(pt.current.value) == StoreAll(old(pt.Memory(pt.current.value)), ptr, src)
  {
    hide TreeOk, FreeOk, KernelKept, BuildsOk, Roots, SpacesOk, PidsOk, RunOk, View, Lookup, HwTranslate, WithByte,
         HasW, Accepts;
    var ok := CheckPages(pt, ptr, |src|, true);
    if !ok {
      return None;
    }
    ghost var view := pt.Memory(pt.current.value);
    AcceptsCovers(view, ptr, |src|, true);
    var i := 0;
    while i < |src|
      invariant 0 <= i <= |src| && pt.Valid() && pt.OthersKept(pt.current.value)
      invariant pt.Memory(pt.current.value) == StoreAll(view, ptr, src[..i])
    {
      CurrentRuns(pt.procs, pt.current, pt.satp, pt.phys.kernelRoot);
      SlotOk(pt.phys.role, pt.phys.kernelRoot, pt.procs, Roots(pt.builds), pt.current.value);
      assert InView(view, ptr + i);
      assert (ptr + i) / 4096 in pt.Memory(pt.current.value);
      var u := (ptr + i) / 4096;
      KernelMay(pt.phys.mem, pt.phys.role, pt.phys.free, pt.phys.head, pt.phys.freePages, pt.phys.kernelRoot, pt.satp,
                u);
      StoreAllPerms(view, ptr, src[..i]);
      assert PageOk(view, u, true);
      var f := HwTranslate(pt.phys.mem, pt.satp, u, Access.Store, Supervisor(true)).value;
      Poke(pt, f, ptr + i, src[i]);
      assert src[..i + 1][..i] == src[..i];
      i := i + 1;
    }
    assert src[..|src|] == src;
    return Some(|src|);
  }
}
