/**
 The physical page allocator (src/kalloc.rs) and the page-table operations built on it
 (src/vm.rs), over one store of pages that holds free-list links, tables and user data alike.
 */
module Phys {
  import opened Options
  import opened PageTables
  import Bytes

  const PAGE_SIZE := 4096
  const PHYS_TOP := 0x8800_0000
  const POISON := 0x5a5a_5a5a_5a5a_5a5a

  /** A page of equal words: `ptr::write_bytes` over a whole page. */
  function Filled(x: nat): (page: seq<nat>)
    ensures |page| == WORDS && forall i :: 0 <= i < WORDS ==> page[i] == x
  {
    seq(WORDS, _ => x)
  }

  const ZEROS: seq<nat> := Filled(0)

  function Poisoned(next: nat): (page: seq<nat>)
    ensures |page| == WORDS && page[0] == next
  {
    Filled(POISON)[0 := next]
  }

  /** The page as free() leaves it: 0x5a in every byte, then the link in the first word. */
  lemma PoisonedBytes(next: nat, k: nat)
    requires k < 4096
    ensures Poisoned(next)[0] == next && (k >= 8 ==> Bytes.ByteAt(Poisoned(next), k) == 0x5a)
  {
    if k >= 8 {
      PoisonDigit(k % 8);
    }
  }

  lemma PoisonDigit(r: nat)
    requires r < 8
    ensures Bytes.Digit(POISON, r) == 0x5a
  {
    assert Bytes.Digit(0x5a, 0) == 0x5a;
    assert Bytes.Digit(0x5a5a, 1) == 0x5a && Bytes.Digit(0x5a5a, 0) == 0x5a;
    assert Bytes.Digit(0x5a5a_5a, 2) == 0x5a;
    assert Bytes.Digit(0x5a5a_5a5a, 3) == 0x5a;
    assert Bytes.Digit(0x5a5a_5a5a_5a, 4) == 0x5a;
    assert Bytes.Digit(0x5a5a_5a5a_5a5a, 5) == 0x5a;
    assert Bytes.Digit(0x5a5a_5a5a_5a5a_5a, 6) == 0x5a;
  }

  // --- the intrusive free list ---

  /** Address of the k-th free page, or the null pointer past the end. */
  function NextAddr(free: seq<nat>, k: nat): nat
  {
    if k < |free| then free[k] * PAGE_SIZE else 0
  }

  /** `free` is the list threaded through the first words of the free pages, and it holds
      each free page exactly once. */
  ghost predicate FreeOk(mem: Mem, role: Roles, free: seq<nat>, head: nat, freePages: nat)
  {
    && PagesOk(mem, role)
    && (forall p :: p in role ==> 0 < p < VP_MAX)
    && head == NextAddr(free, 0) && freePages == |free|
    && (forall k :: 0 <= k < |free| ==> free[k] in role && role[free[k]].Free?)
    && (forall k: nat {:trigger NextAddr(free, k)} :: 0 < k <= |free| ==> mem[free[k - 1]][0] == NextAddr(free, k))
    && (forall j, k :: 0 <= j < k < |free| ==> free[j] != free[k])
    && (forall p :: p in role && role[p].Free? ==> p in free)
  }

  lemma PopFree(mem: Mem, role: Roles, free: seq<nat>, head: nat, n: nat)
    requires FreeOk(mem, role, free, head, n) && n > 0
    ensures head != 0 && head / PAGE_SIZE == free[0] && free[0] in role
    ensures FreeOk(mem, role[free[0] := Loose], free[1..], mem[free[0]][0], n - 1)
  {
    var role', free' := role[free[0] := Loose], free[1..];
    forall k: nat | 0 < k <= |free'| ensures mem[free'[k - 1]][0] == NextAddr(free', k) {
      assert NextAddr(free', k) == NextAddr(free, k + 1);
    }
    assert mem[free[0]][0] == NextAddr(free, 1) == NextAddr(free', 0);
    forall p | p in role' && role'[p].Free? ensures p in free[1..] {
      var k :| 0 <= k < |free| && free[k] == p;
      assert free[1..][k - 1] == p;
    }
  }

  lemma PushFree(mem: Mem, role: Roles, free: seq<nat>, head: nat, n: nat, p: nat)
    requires FreeOk(mem, role, free, head, n) && p in role && role[p].Loose?
    ensures FreeOk(mem[p := Poisoned(head)], role[p := Role.Free], [p] + free, p * PAGE_SIZE, n + 1)
  {
    var role', free' := role[p := Role.Free], [p] + free;
    forall k: nat | 0 < k <= |free'| ensures mem[p := Poisoned(head)][free'[k - 1]][0] == NextAddr(free', k) {
      assert NextAddr(free', k) == NextAddr(free, k - 1);
    }
    assert forall q :: q in role' && role'[q].Free? ==> q == p || q in free;
  }

  /** A change of contents and role of an unlinked page is invisible to every tree. */
  lemma UnlinkedWrite(mem: Mem, role: Roles, kroot: nat, p: nat, page: seq<nat>, x: Role)
    requires TreeOk(mem, role, kroot) && p in role && |page| == WORDS
    requires (role[p].Free? || role[p].Loose?) && (x.Free? || x.Loose?)
    ensures TreeOk(mem[p := page], role[p := x], kroot) && SameMaps(mem, mem[p := page], role)
  {
    DataWrite(mem, role, kroot, p, page);
    Relabel(mem[p := page], role, kroot, p, x);
  }

  lemma SameMapsSelf(mem: Mem, role: Roles)
    ensures SameMaps(mem, mem, role)
  {
  }

  // --- seeding ---

  /** The reserved byte range rounded out to pages, as page numbers. */
  function ResStart(reserved: Option<(nat, nat)>): nat
  {
    match reserved case None => 0 case Some((s, _)) => s / PAGE_SIZE
  }

  function ResEnd(reserved: Option<(nat, nat)>): nat
  {
    match reserved case None => 0 case Some((_, e)) => (e + 4095) / PAGE_SIZE
  }

  /** Is page `p` given to the allocator at boot? */
  predicate InPool(allocStart: nat, reserved: Option<(nat, nat)>, p: nat)
  {
    && (allocStart + 4095) / PAGE_SIZE <= p && (p + 1) * PAGE_SIZE <= PHYS_TOP
    && (p >= ResEnd(reserved) || p + 1 <= ResStart(reserved))
  }

  /** In bytes: a page is in the pool exactly when it lies wholly inside the range and, if the
      reserved range is not empty, touches none of its bytes. */
  lemma InPoolBytes(allocStart: nat, s: nat, e: nat, p: nat)
    requires s < e
    ensures InPool(allocStart, Some((s, e)), p) <==>
              && allocStart <= p * PAGE_SIZE && p * PAGE_SIZE + PAGE_SIZE <= PHYS_TOP
              && (e <= p * PAGE_SIZE || p * PAGE_SIZE + PAGE_SIZE <= s)
    ensures InPool(allocStart, None, p) <==> allocStart <= p * PAGE_SIZE && p * PAGE_SIZE + PAGE_SIZE <= PHYS_TOP
  {
  }

  lemma AddPage(mem: Mem, role: Roles, free: seq<nat>, head: nat, n: nat, p: nat)
    requires FreeOk(mem, role, free, head, n) && p !in role && 0 < p < VP_MAX && p in mem && |mem[p]| == WORDS
    ensures FreeOk(mem, role[p := Loose], free, head, n)
  {
  }

  // --- what an operation on one address space may touch ---

  /** No translation of any address space differs. */
  ghost predicate SameMaps(mem0: Mem, mem: Mem, role: Roles)
  {
    forall r, v: nat {:trigger Lookup(mem, r, v)} ::
      r in role && role[r].Root? && v < VP_END ==> Lookup(mem, r, v) == Lookup(mem0, r, v)
  }

  /** Exactly the pages [vp, vp+n) of `root` now map to [f, f+n) with `perm`; every other
      translation, of this and of every other address space, is what it was. */
  ghost predicate Mapped(mem0: Mem, mem: Mem, role: Roles, root: nat, vp: nat, f: nat, n: nat, perm: nat)
  {
    forall r, v: nat {:trigger Lookup(mem, r, v)} ::
      r in role && role[r].Root? && v < VP_END ==>
        Lookup(mem, r, v) ==
          if r == root && vp <= v < vp + n then Some(LeafPte(f + (v - vp), perm)) else Lookup(mem0, r, v)
  }

  /** The space of `root` grew by pages taken off the free list and by the loose pages `fs`;
      nothing that belonged to anybody else changed hands or contents. */
  ghost predicate Grew(mem0: Mem, role0: Roles, mem: Mem, role: Roles, root: nat, fs: set<nat>)
  {
    && role.Keys == role0.Keys
    && fs <= role0.Keys
    && (forall p :: p in fs ==> role0[p].Loose? && role[p].Frame?)
    && (forall p :: p in role0 && !role0[p].Free? && p !in fs ==>
          role[p] == role0[p] && Owner(role, p) == Owner(role0, p))
    && (forall p :: p in role0 && !role0[p].Free? && !(role0[p].Table?() && Owner(role0, p) == Some(root)) ==>
          p in mem && p in mem0 && mem[p] == mem0[p])
    && (forall p :: p in role0 && !role0[p].Free? ==> !role[p].Free?)
    && (forall p :: p in role0 && (p in fs || (role0[p].Free? && !role[p].Free?)) ==> Owner(role, p) == Some(root))
  }

  lemma GrewTrans(m0: Mem, r0: Roles, m1: Mem, r1: Roles, m2: Mem, r2: Roles, root: nat, fs: set<nat>, gs: set<nat>)
    requires Grew(m0, r0, m1, r1, root, fs) && Grew(m1, r1, m2, r2, root, gs)
    requires forall p :: p in gs ==> r0[p].Loose?
    requires root in r0 && r0[root].Root?
    ensures Grew(m0, r0, m2, r2, root, fs + gs)
  {
  }

  lemma GrewRefl(mem: Mem, role: Roles, kroot: nat, root: nat)
    requires TreeOk(mem, role, kroot)
    ensures SameMaps(mem, mem, role) && Grew(mem, role, mem, role, root, {})
  {
  }

  lemma SameGrewTrans(m0: Mem, r0: Roles, m1: Mem, r1: Roles, m2: Mem, r2: Roles, root: nat)
    requires SameMaps(m0, m1, r0) && Grew(m0, r0, m1, r1, root, {})
    requires SameMaps(m1, m2, r1) && Grew(m1, r1, m2, r2, root, {})
    requires root in r0 && r0[root].Root?
    ensures SameMaps(m0, m2, r0) && Grew(m0, r0, m2, r2, root, {})
    ensures root in r2 && r2[root].Root?
  {
    GrewTrans(m0, r0, m1, r1, m2, r2, root, {}, {});
  }

  lemma PageIn(mem: Mem, role: Roles, kroot: nat, p: nat)
    requires TreeOk(mem, role, kroot) && p in role
    ensures p in mem && |mem[p]| == WORDS
  {
  }

  lemma KernelRootIn(mem: Mem, role: Roles, kroot: nat)
    requires TreeOk(mem, role, kroot)
    ensures kroot in role && role[kroot].Root? && kroot in mem && |mem[kroot]| == WORDS
  {
  }

  /** The free list only depends on the free pages. */
  lemma NonFreeWrite(mem: Mem, role: Roles, free: seq<nat>, head: nat, n: nat, p: nat, page: seq<nat>)
    requires FreeOk(mem, role, free, head, n) && p in role && !role[p].Free? && |page| == WORDS
    ensures FreeOk(mem[p := page], role, free, head, n)
  {
  }

  lemma NonFreeRole(mem: Mem, role: Roles, free: seq<nat>, head: nat, n: nat, p: nat, x: Role)
    requires FreeOk(mem, role, free, head, n) && p in role && !role[p].Free? && !x.Free?
    ensures FreeOk(mem, role[p := x], free, head, n)
  {
  }

  /** Taking a page off the free list and linking it as a table, as one step. */
  lemma LinkStep(mem: Mem, role: Roles, kroot: nat, root: nat, t: nat, i: nat, q: nat)
    requires TreeOk(mem, role, kroot) && CanLink(mem, role, kroot, t, i)
    requires Owner(role, t) == Some(root) && q in role && role[q].Free?
    ensures
      var mem1, role1 := mem[q := ZEROS], role[q := Loose];
      var mem2, role2 := SetWord(mem1, t, i, Ptr(q)), role1[q := LinkRole(role1, t, i)];
      TreeOk(mem2, role2, kroot) && SameMaps(mem, mem2, role) && Grew(mem, role, mem2, role2, root, {})
  {
    hide IsValid, Ppn, Ptr, LeafPte, HasU, IsPerm, PermOf;
    var mem1, role1 := mem[q := ZEROS], role[q := Loose];
    UnlinkedWrite(mem, role, kroot, q, ZEROS, Loose);
    LinkKeepsTree(mem1, role1, kroot, t, i, q);
    var mem2, role2 := SetWord(mem1, t, i, Ptr(q)), role1[q := LinkRole(role1, t, i)];
    forall r, v: nat | r in role && role[r].Root? && v < VP_END ensures Lookup(mem2, r, v) == Lookup(mem, r, v) {
      LinkKeepsLookup(mem1, role1, kroot, t, i, q, r, v);
    }
    forall p | p in role && !role[p].Free? ensures Owner(role2, p) == Owner(role, p) {
      assert UpOk(mem, role, kroot, p);
      if role[p].Frame? {
        assert UpOk(mem, role, kroot, role[p].low);
      }
    }
  }

  // --- one level of the walk ---

  function Index(vp: nat, level: nat): nat
  {
    if level == 2 then V2(vp) else if level == 1 then V1(vp) else V0(vp)
  }

  /** `table` is where the walk for `vp` stands when `level` levels are still to go. */
  predicate PathAt(mem: Mem, role: Roles, kroot: nat, root: nat, vp: nat, level: nat, table: nat)
  {
    && table in role
    && match level
       case 2 => table == root
       case 1 =>
         && Rd(mem, root, V2(vp)) == Ptr(table)
         && role[table] == Mid(if Private(kroot, root, V2(vp)) then root else kroot, V2(vp))
       case _ => LowOf(mem, root, vp) == Some(table)
  }

  lemma Descend(mem: Mem, role: Roles, kroot: nat, root: nat, vp: nat, level: nat, table: nat)
    requires TreeOk(mem, role, kroot) && root in role && role[root].Root? && vp < VP_END
    requires 0 < level <= 2 && PathAt(mem, role, kroot, root, vp, level, table)
    ensures
      var e := Rd(mem, table, Index(vp, level));
      if IsValid(e) then PathAt(mem, role, kroot, root, vp, level - 1, Ppn(e))
      else
        && LowOf(mem, root, vp) == None
        && (Private(kroot, root, V2(vp)) && (root == kroot ==> OnlyRoot(role, kroot)) ==>
              CanLink(mem, role, kroot, table, Index(vp, level)) && Owner(role, table) == Some(root))
  {
    hide IsValid, Ppn, Ptr, LeafPte, HasU, IsPerm, PermOf, V0;
    PtrFields(table);
    assert DownOk(mem, role, kroot, table, Index(vp, level));
    assert DownOk(mem, role, kroot, kroot, Index(vp, level));
  }

  lemma DescendNew(mem: Mem, role: Roles, kroot: nat, root: nat, vp: nat, level: nat, table: nat, q: nat)
    requires TreeOk(mem, role, kroot) && root in role && role[root].Root? && vp < VP_END
    requires 0 < level <= 2 && PathAt(mem, role, kroot, root, vp, level, table)
    requires CanLink(mem, role, kroot, table, Index(vp, level)) && Owner(role, table) == Some(root)
    requires Private(kroot, root, V2(vp)) && q in role && role[q].Free?
    ensures
      var i := Index(vp, level);
      var mem', role' := SetWord(mem[q := ZEROS], table, i, Ptr(q)), role[q := LinkRole(role, table, i)];
      && PathAt(mem', role', kroot, root, vp, level - 1, q)
      && (OnlyRoot(role, kroot) ==> OnlyRoot(role', kroot))
  {
    hide IsValid, Ppn, Ptr, V0, V1, V2;
    PtrFields(q);
    PtrFields(table);
  }

  // --- writing one leaf ---

  /** Is page `f` something `root` may map with `perm` at `vp`?  A process maps a loose page, with U;
      the kernel maps a page to itself, without U. */
  predicate FrameFor(role: Roles, kroot: nat, root: nat, vp: nat, f: nat, perm: nat)
  {
    && IsPerm(perm)
    && if root == kroot then !HasU(perm) && f == vp else HasU(perm) && f in role && role[f].Loose?
  }

  predicate Between(f: nat, n: nat, p: nat) { f <= p < f + n }

  /** The pages that stop being loose when [f, f+n) is mapped. */
  function Taken(kroot: nat, root: nat, f: nat, n: nat): set<nat>
  {
    if root == kroot then {} else set p | f <= p < f + n && Between(f, n, p)
  }

  lemma MapStep(mem: Mem, role: Roles, kroot: nat, root: nat, vp: nat, low: nat, f: nat, perm: nat)
    requires TreeOk(mem, role, kroot) && root in role && role[root].Root? && vp < VP_END
    requires Private(kroot, root, V2(vp)) && (root == kroot ==> OnlyRoot(role, kroot))
    requires LowOf(mem, root, vp) == Some(low) && Lookup(mem, root, vp).None?
    requires FrameFor(role, kroot, root, vp, f, perm)
    ensures CanMap(mem, role, kroot, low, V0(vp), f, perm)
    ensures
      var mem', role' := SetWord(mem, low, V0(vp), LeafPte(f, perm)), MapRole(role, kroot, low, V0(vp), f);
      && TreeOk(mem', role', kroot)
      && Mapped(mem, mem', role, root, vp, f, 1, perm)
      && Grew(mem, role, mem', role', root, Taken(kroot, root, f, 1))
      && (OnlyRoot(role, kroot) ==> OnlyRoot(role', kroot))
      && role' == if root == kroot then role else role[f := Frame(low, V0(vp))]
  {
    hide Mapped, Grew;
    LowOfRole(mem, role, kroot, root, vp);
    MapKeepsTree(mem, role, kroot, low, V0(vp), f, perm);
    MapMapped(mem, role, kroot, root, vp, low, f, perm);
    MapGrew(mem, role, kroot, root, vp, low, f, perm);
  }

  lemma MapMapped(mem: Mem, role: Roles, kroot: nat, root: nat, vp: nat, low: nat, f: nat, perm: nat)
    requires TreeOk(mem, role, kroot) && root in role && role[root].Root? && vp < VP_END
    requires LowOf(mem, root, vp) == Some(low) && Private(kroot, root, V2(vp))
    requires root == kroot ==> OnlyRoot(role, kroot)
    requires CanMap(mem, role, kroot, low, V0(vp), f, perm)
    ensures Mapped(mem, SetWord(mem, low, V0(vp), LeafPte(f, perm)), role, root, vp, f, 1, perm)
  {
    hide IsValid, Ppn, Ptr, LeafPte, HasU, IsPerm, PermOf, Lookup, SetWord, LowOf, V1, V2;
    LowOfRole(mem, role, kroot, root, vp);
    MapLookup(mem, role, kroot, low, V0(vp), f, perm, root, vp);
    var mem' := SetWord(mem, low, V0(vp), LeafPte(f, perm));
    forall r, v: nat | r in role && role[r].Root? && v < VP_END
      ensures Lookup(mem', r, v) ==
                if r == root && vp <= v < vp + 1 then Some(LeafPte(f + (v - vp), perm)) else Lookup(mem, r, v)
    {
      MapLookup(mem, role, kroot, low, V0(vp), f, perm, r, v);
      if V0(v) == V0(vp) && V1(v) == V1(vp) && V2(v) == V2(vp) {
        VpUnique(v, vp);
      }
    }
  }

  lemma VpUnique(v: nat, w: nat)
    requires V0(v) == V0(w) && V1(v) == V1(w) && V2(v) == V2(w)
    ensures v == w
  {
    assert v / 262144 == (v / 512) / 512 && w / 262144 == (w / 512) / 512;
  }

  lemma MapGrew(mem: Mem, role: Roles, kroot: nat, root: nat, vp: nat, low: nat, f: nat, perm: nat)
    requires TreeOk(mem, role, kroot) && root in role && role[root].Root? && vp < VP_END
    requires LowOf(mem, root, vp) == Some(low) && Private(kroot, root, V2(vp))
    requires CanMap(mem, role, kroot, low, V0(vp), f, perm)
    ensures
      var mem', role' := SetWord(mem, low, V0(vp), LeafPte(f, perm)), MapRole(role, kroot, low, V0(vp), f);
      Grew(mem, role, mem', role', root, Taken(kroot, root, f, 1))
  {
    hide IsValid, Ppn, Ptr, LeafPte, HasU, IsPerm, PermOf;
    LeafFields(f, perm);
    LowOfRole(mem, role, kroot, root, vp);
    var role' := MapRole(role, kroot, low, V0(vp), f);
    forall p | p in role && !role[p].Free? && p != f ensures Owner(role', p) == Owner(role, p) {
      assert UpOk(mem, role, kroot, p);
      if role[p].Frame? {
        assert UpOk(mem, role, kroot, role[p].low);
      }
    }
    if root == kroot {
      assert role' == role;
    }
  }

  lemma MappedTrans(m0: Mem, r0: Roles, m1: Mem, r1: Roles, m2: Mem, r2: Roles, m3: Mem, r3: Roles,
                    kroot: nat, root: nat, vp: nat, f: nat, n: nat, perm: nat)
    requires root in r0 && r0[root].Root?
    requires Mapped(m0, m1, r0, root, vp, f, n, perm) && Grew(m0, r0, m1, r1, root, Taken(kroot, root, f, n))
    requires SameMaps(m1, m2, r1) && Grew(m1, r1, m2, r2, root, {})
    requires Mapped(m2, m3, r2, root, vp + n, f + n, 1, perm)
    requires Grew(m2, r2, m3, r3, root, Taken(kroot, root, f + n, 1))
    requires root != kroot ==> f + n in r0 && r0[f + n].Loose?
    ensures Mapped(m0, m3, r0, root, vp, f, n + 1, perm) && Grew(m0, r0, m3, r3, root, Taken(kroot, root, f, n + 1))
    ensures root in r3 && r3[root].Root?
  {
    hide LeafPte, Owner, Lookup;
    GrewTrans(m0, r0, m1, r1, m2, r2, root, Taken(kroot, root, f, n), {});
    assert Taken(kroot, root, f, n) + {} == Taken(kroot, root, f, n);
    GrewTrans(m0, r0, m2, r2, m3, r3, root, Taken(kroot, root, f, n), Taken(kroot, root, f + n, 1));
    assert Taken(kroot, root, f, n) + Taken(kroot, root, f + n, 1) == Taken(kroot, root, f, n + 1);
  }

  lemma MappedRefl(mem: Mem, role: Roles, kroot: nat, root: nat, vp: nat, f: nat, perm: nat)
    requires TreeOk(mem, role, kroot)
    ensures Mapped(mem, mem, role, root, vp, f, 0, perm) && Grew(mem, role, mem, role, root, Taken(kroot, root, f, 0))
  {
  }

  /** What the loop of `map_pages` has yet to map is still unmapped, and its frames are still loose. */
  lemma StillNone(m0: Mem, r0: Roles, m1: Mem, r1: Roles, kroot: nat, root: nat, vp: nat, f: nat, k: nat, perm: nat)
    requires root in r0 && r0[root].Root? && vp + k < VP_END
    requires Mapped(m0, m1, r0, root, vp, f, k, perm) && Grew(m0, r0, m1, r1, root, Taken(kroot, root, f, k))
    requires Lookup(m0, root, vp + k).None? && FrameFor(r0, kroot, root, vp + k, f + k, perm)
    ensures Lookup(m1, root, vp + k).None? && FrameFor(r1, kroot, root, vp + k, f + k, perm)
  {
  }

  lemma StillNone2(m0: Mem, r0: Roles, m1: Mem, r1: Roles, kroot: nat, root: nat, vp: nat, f: nat, perm: nat)
    requires root in r0 && r0[root].Root? && vp < VP_END
    requires SameMaps(m0, m1, r0) && Grew(m0, r0, m1, r1, root, {})
    requires Lookup(m0, root, vp).None? && FrameFor(r0, kroot, root, vp, f, perm)
    ensures Lookup(m1, root, vp).None? && FrameFor(r1, kroot, root, vp, f, perm)
    ensures root in r1 && r1[root].Root?
  {
  }

  lemma DataWriteSame(mem: Mem, role: Roles, kroot: nat, p: nat, page: seq<nat>)
    requires TreeOk(mem, role, kroot) && p in role && !role[p].Table?() && |page| == WORDS
    ensures TreeOk(mem[p := page], role, kroot) && SameMaps(mem, mem[p := page], role)
  {
    DataWrite(mem, role, kroot, p, page);
  }

  lemma FreshNone(m0: Mem, m1: Mem, m2: Mem, r0: Roles, r1: Roles, root: nat, vp: nat, q: nat)
    requires root in r0 && r0[root].Root? && vp < VP_END && q in r0 && r0[q].Free?
    requires r1 == r0[q := Loose] && SameMaps(m0, m1, r0) && SameMaps(m1, m2, r1)
    requires Lookup(m0, root, vp).None?
    ensures Lookup(m2, root, vp).None? && root in r1 && r1[root].Root?
  {
  }

  lemma FreshMapped(m0: Mem, m1: Mem, m2: Mem, m3: Mem, r0: Roles, root: nat, vp: nat, q: nat, perm: nat)
    requires q in r0 && r0[q].Free?
    requires SameMaps(m0, m1, r0) && SameMaps(m1, m2, r0[q := Loose])
    requires Mapped(m2, m3, r0[q := Loose], root, vp, q, 1, perm)
    ensures Mapped(m0, m3, r0, root, vp, q, 1, perm)
  {
  }

  /** Taking a page off the free list changes nobody's ownership. */
  lemma AllocOwner(mem: Mem, role: Roles, kroot: nat, q: nat, p: nat)
    requires TreeOk(mem, role, kroot) && q in role && role[q].Free? && p in role && !role[p].Free?
    ensures Owner(role[q := Loose], p) == Owner(role, p)
  {
    assert UpOk(mem, role, kroot, p);
    if role[p].Frame? {
      assert UpOk(mem, role, kroot, role[p].low);
    }
  }

  lemma FreshGrew(m0: Mem, r0: Roles, m2: Mem, m3: Mem, r3: Roles, kroot: nat, root: nat, q: nat, page: seq<nat>)
    requires TreeOk(m0, r0, kroot) && root != kroot && q in r0 && r0[q].Free?
    requires m2 == m0[q := ZEROS][q := page]
    requires Grew(m2, r0[q := Loose], m3, r3, root, Taken(kroot, root, q, 1))
    ensures Grew(m0, r0, m3, r3, root, {})
    ensures q in m3 && m3[q] == page && q in r3 && r3[q].Frame?
  {
    hide TreeOk, Owner;
    var r1 := r0[q := Loose];
    assert Taken(kroot, root, q, 1) == {q} by {
      assert Between(q, 1, q);
    }
    forall p | p in r0 && !r0[p].Free? ensures Owner(r1, p) == Owner(r0, p) {
      AllocOwner(m0, r0, kroot, q, p);
    }
  }

  class PhysMem {
    /** All of the pool's DRAM. */
    var mem: Mem
    /** KMEM: address of the first free page (0 = null) and the number of free pages. */
    var head: nat
    var freePages: nat
    /** KERNEL_ROOT, as a page number; 0 until the kernel table is built. */
    var kernelRoot: nat

    ghost var free: seq<nat>
    ghost var role: Roles

    ghost predicate Valid()
      reads this
    {
      FreeOk(mem, role, free, head, freePages)
    }

    ghost predicate Booted()
      reads this
    {
      Valid() && TreeOk(mem, role, kernelRoot)
    }

    ghost predicate IsRoot(r: nat)
      reads this
    {
      r in role && role[r].Root?
    }

    // --- kalloc.rs ---

    /** Seed the free list with every page of [allocStart, PHYS_TOP) that does not overlap `reserved`. */
    constructor (dram: Mem, allocStart: nat, reserved: Option<(nat, nat)>)
      requires 0 < allocStart && forall p: nat :: InPool(allocStart, reserved, p) ==> p in dram && |dram[p]| == WORDS
      ensures Valid() && kernelRoot == 0
      ensures forall p: nat :: p in role <==> InPool(allocStart, reserved, p)
      ensures forall p :: p in role ==> role[p].Free?
    {
      mem, head, freePages, kernelRoot := dram, 0, 0, 0;
      free, role := [], map[];
      new;
      assert Valid();
      hide FreeOk;
      var start := (allocStart + 4095) / PAGE_SIZE;
      var page := start;
      while (page + 1) * PAGE_SIZE <= PHYS_TOP
        invariant start <= page && Valid() && kernelRoot == 0
        invariant mem.Keys == dram.Keys && forall p :: p in dram && p >= page ==> mem[p] == dram[p]
        invariant forall p: nat :: p in role <==> p < page && InPool(allocStart, reserved, p)
        invariant forall p :: p in role ==> role[p].Free?
        decreases PHYS_TOP - page * PAGE_SIZE
      {
        if page >= ResEnd(reserved) || page + 1 <= ResStart(reserved) {
          assert InPool(allocStart, reserved, page);
          Seed(page);
        }
        page := page + 1;
      }
    }

    /** One `free` of the seeding loop: the page joins the pool. */
    method Seed(page: nat)
      requires Valid() && page !in role && 0 < page < VP_MAX && page in mem && |mem[page]| == WORDS
      modifies this
      ensures Valid() && kernelRoot == old(kernelRoot)
      ensures role == old(role)[page := Role.Free]
      ensures mem.Keys == old(mem).Keys && forall p :: p in mem && p != page ==> mem[p] == old(mem)[p]
    {
      hide FreeOk, TreeOk;
      AddPage(mem, role, free, head, freePages, page);
      role := role[page := Loose];
      this.Free(page);
    }

    /** The part of alloc under the lock: take the first page off the list, with what is in it. */
    method Pop() returns (r: Option<nat>)
      requires Valid()
      modifies `free, `head, `freePages, `role
      ensures Valid()
      ensures r.None? <==> old(freePages) == 0
      ensures r.None? ==> unchanged(this)
      ensures r.Some? ==>
                && old(free) == [r.value] + free && freePages == old(freePages) - 1
                && r.value in old(role) && old(role)[r.value].Free? && role == old(role)[r.value := Loose]
      ensures old(Booted()) ==> Booted()
    {
      var node := head;
      if node == 0 {
        return None;
      }
      PopFree(mem, role, free, head, freePages);
      var p := node / PAGE_SIZE;
      if Booted() {
        UnlinkedWrite(mem, role, kernelRoot, p, mem[p], Loose);
        assert mem[p := mem[p]] == mem;
      }
      head := mem[p][0];
      freePages := freePages - 1;
      free := free[1..];
      role := role[p := Loose];
      return Some(p);
    }

    /** Allocate one zeroed page. */
    method Alloc() returns (r: Option<nat>)
      requires Valid()
      modifies this
      ensures Valid() && kernelRoot == old(kernelRoot)
      ensures r.None? <==> old(freePages) == 0
      ensures r.None? ==> unchanged(this)
      ensures r.Some? ==>
                && old(free) == [r.value] + free && freePages == old(freePages) - 1
                && r.value in old(role) && old(role)[r.value].Free?
                && role == old(role)[r.value := Loose] && mem == old(mem)[r.value := ZEROS]
      ensures old(Booted()) ==> Booted() && SameMaps(old(mem), mem, old(role))
    {
      hide TreeOk, FreeOk, SameMaps;
      ghost var mem0, role0, booted := mem, role, Booted();
      r := Pop();
      if r.None? {
        if booted {
          SameMapsSelf(mem, role);
        }
        return;
      }
      NonFreeWrite(mem, role, free, head, freePages, r.value, ZEROS);
      mem := mem[r.value := ZEROS];
      if booted {
        UnlinkedWrite(mem0, role0, kernelRoot, r.value, ZEROS, Loose);
      }
    }

    /** Return a page to the allocator, poisoned. */
    method Free(p: nat)
      requires Valid() && p in role && role[p].Loose?
      modifies this
      ensures Valid() && kernelRoot == old(kernelRoot)
      ensures free == [p] + old(free)
      ensures role == old(role)[p := Role.Free]
      ensures mem == old(mem)[p := Poisoned(NextAddr(old(free), 0))]
      ensures old(Booted()) ==> Booted() && SameMaps(old(mem), mem, old(role))
    {
      PushFree(mem, role, free, head, freePages, p);
      if Booted() {
        UnlinkedWrite(mem, role, kernelRoot, p, Poisoned(head), Role.Free);
      }
      mem := mem[p := Poisoned(head)];
      head := p * PAGE_SIZE;
      freePages := freePages + 1;
      free := [p] + free;
      role := role[p := Role.Free];
    }

    // --- vm.rs: walk and map_pages ---

    /** May `root` gain mappings at `vp`?  A process only in its own slot; the kernel table only
        while it is being built, before any process shares it. */
    ghost predicate MayMap(root: nat, vp: nat)
      reads this
    {
      Private(kernelRoot, root, V2(vp)) && (root == kernelRoot ==> OnlyRoot(role, kernelRoot))
    }

    /** The allocating branch of `walk`: a fresh table behind slot `i` of `table`. */
    method LinkNew(ghost root: nat, table: nat, i: nat) returns (page: Option<nat>)
      requires Booted() && CanLink(mem, role, kernelRoot, table, i) && Owner(role, table) == Some(root)
      modifies this
      ensures Booted() && kernelRoot == old(kernelRoot)
      ensures SameMaps(old(mem), mem, old(role)) && Grew(old(mem), old(role), mem, role, root, {})
      ensures page.None? ==> unchanged(this) && freePages == 0
      ensures page.Some? ==> freePages == old(freePages) - 1
      ensures page.Some? ==>
                && page.value in old(role) && old(role)[page.value].Free? && table in old(mem) && i < |old(mem)[table]|
                && role == old(role)[page.value := LinkRole(old(role), table, i)]
                && mem == SetWord(old(mem)[page.value := ZEROS], table, i, Ptr(page.value))
    {
      hide TreeOk, FreeOk, SameMaps, Grew;
      GrewRefl(mem, role, kernelRoot, root);
      page := Alloc();
      if page.None? {
        return;
      }
      var q := page.value;
      LinkStep(old(mem), old(role), kernelRoot, root, table, i, q);
      PageIn(mem, role, kernelRoot, q);
      PageIn(mem, role, kernelRoot, table);
      NonFreeRole(mem, role, free, head, freePages, q, LinkRole(role, table, i));
      role := role[q := LinkRole(role, table, i)];
      NonFreeWrite(mem, role, free, head, freePages, table, mem[table][i := Ptr(q)]);
      mem := SetWord(mem, table, i, Ptr(q));
    }

    /** Find the word that maps `vp`, linking in missing tables if `alloc` is set. */
    method Walk(root: nat, vp: nat, alloc: bool) returns (slot: Option<(nat, nat)>)
      requires Booted() && IsRoot(root) && vp < VP_MAX
      requires alloc ==> MayMap(root, vp)
      modifies this
      ensures Booted() && kernelRoot == old(kernelRoot)
      ensures !alloc ==> unchanged(this)
      ensures !alloc ==> slot == match LowOf(mem, root, vp) case None => None case Some(l) => Some((l, V0(vp)))
      ensures SameMaps(old(mem), mem, old(role)) && Grew(old(mem), old(role), mem, role, root, {})
      ensures alloc && slot.None? ==> freePages == 0 && old(freePages) < 2
      ensures freePages + 2 >= old(freePages)
      ensures IsRoot(root) && (alloc ==> MayMap(root, vp))
      ensures slot.Some? ==> LowOf(mem, root, vp) == Some(slot.value.0) && slot.value.1 == V0(vp)
    {
      hide TreeOk, FreeOk, SameMaps, Grew, LowOf;
      GrewRefl(mem, role, kernelRoot, root);
      var table := root;
      var level := 2;
      while level > 0
        invariant 0 <= level <= 2
        invariant Booted() && kernelRoot == old(kernelRoot) && IsRoot(root)
        invariant alloc ==> MayMap(root, vp)
        invariant !alloc ==> mem == old(mem) && role == old(role) && unchanged(this)
        invariant SameMaps(old(mem), mem, old(role)) && Grew(old(mem), old(role), mem, role, root, {})
        invariant PathAt(mem, role, kernelRoot, root, vp, level, table)
        invariant freePages + (2 - level) >= old(freePages)
      {
        var i := Index(vp, level);
        PageIn(mem, role, kernelRoot, table);
        var pte := mem[table][i];
        Descend(mem, role, kernelRoot, root, vp, level, table);
        if IsValid(pte) {
          table := Ppn(pte);
        } else {
          if !alloc {
            return None;
          }
          ghost var mem1, role1 := mem, role;
          var page := LinkNew(root, table, i);
          if page.Some? {
            DescendNew(mem1, role1, kernelRoot, root, vp, level, table, page.value);
          }
          SameGrewTrans(old(mem), old(role), mem1, role1, mem, role, root);
          if page.None? {
            return None;
          }
          table := page.value;
        }
        level := level - 1;
      }
      return Some((table, V0(vp)));
    }

    /** Map [vp, vp+n) to [f, f+n).  The clauses on Lookup and the range are the assertions of the
        source; `ok` is false when it panics because no page is left for a table. */
    method MapPages(root: nat, vp: nat, f: nat, n: nat, perm: nat) returns (ok: bool)
      requires Booted() && IsRoot(root) && n > 0 && vp + n <= VP_MAX
      requires forall v :: vp <= v < vp + n ==>
                 && MayMap(root, v) && Lookup(mem, root, v).None?
                 && FrameFor(role, kernelRoot, root, v, f + (v - vp), perm)
      modifies this
      ensures Booted() && kernelRoot == old(kernelRoot) && IsRoot(root)
      ensures ok ==> Mapped(old(mem), mem, old(role), root, vp, f, n, perm)
      ensures ok ==> Grew(old(mem), old(role), mem, role, root, Taken(kernelRoot, root, f, n))
      ensures !ok ==> freePages == 0 && old(freePages) < 2 * n
      ensures freePages + 2 * n >= old(freePages)
      ensures root == kernelRoot ==> OnlyRoot(role, kernelRoot)
    {
      hide TreeOk, FreeOk, SameMaps, Grew, Mapped, LowOf, Lookup, Owner, LeafPte, Taken, Private, V1, V2;
      MappedRefl(mem, role, kernelRoot, root, vp, f, perm);
      assert MayMap(root, vp);
      var k := 0;
      while k < n
        invariant 0 <= k <= n && Booted() && kernelRoot == old(kernelRoot) && IsRoot(root)
        invariant root == kernelRoot ==> OnlyRoot(role, kernelRoot)
        invariant Mapped(old(mem), mem, old(role), root, vp, f, k, perm)
        invariant freePages + 2 * k >= old(freePages)
        invariant Grew(old(mem), old(role), mem, role, root, Taken(kernelRoot, root, f, k))
      {
        ghost var mem1, role1 := mem, role;
        assert old(MayMap(root, vp + k));
        StillNone(old(mem), old(role), mem, role, kernelRoot, root, vp, f, k, perm);
        var slot := Walk(root, vp + k, true);
        if slot.None? {
          return false;
        }
        var (low, i) := slot.value;
        ghost var mem2, role2 := mem, role;
        StillNone2(mem1, role1, mem, role, kernelRoot, root, vp + k, f + k, perm);
        MapStep(mem, role, kernelRoot, root, vp + k, low, f + k, perm);
        PageIn(mem, role, kernelRoot, low);
        if root != kernelRoot {
          NonFreeRole(mem, role, free, head, freePages, f + k, Frame(low, i));
        }
        role := MapRole(role, kernelRoot, low, i, f + k);
        NonFreeWrite(mem, role, free, head, freePages, low, mem[low][i := LeafPte(f + k, perm)]);
        mem := SetWord(mem, low, i, LeafPte(f + k, perm));
        MappedTrans(old(mem), old(role), mem1, role1, mem2, role2, mem, role, kernelRoot, root, vp, f, k, perm);
        k := k + 1;
      }
      return true;
    }

    /** Software walk: the leaf entry for `vp`, if it is mapped. */
    method Translate(root: nat, vp: nat) returns (pte: Option<nat>)
      requires Booted() && IsRoot(root) && vp < VP_MAX
      modifies this
      ensures unchanged(this) && pte == Lookup(mem, root, vp)
    {
      hide SameMaps, Grew;
      var slot := Walk(root, vp, false);
      if slot.None? {
        return None;
      }
      var (low, i) := slot.value;
      LowOfRole(mem, role, kernelRoot, root, vp);
      var e := mem[low][i];
      return if IsValid(e) then Some(e) else None;
    }

    /** Allocate a page, fill it and map it at `vp`: what every user mapping in the source does
        (src/proc.rs:210-222, src/proc.rs:225-234, src/proc.rs:586-589, src/vm.rs:276-280). */
    method MapFresh(root: nat, vp: nat, page: seq<nat>, perm: nat) returns (f: Option<nat>)
      requires Booted() && IsRoot(root) && root != kernelRoot && vp < VP_MAX && V2(vp) == USER_SLOT
      requires Lookup(mem, root, vp).None? && |page| == WORDS
      requires IsPerm(perm) && HasU(perm)
      modifies this
      ensures Booted() && kernelRoot == old(kernelRoot) && IsRoot(root)
      ensures f.None? ==> freePages == 0 && old(freePages) < 3
      ensures freePages + 3 >= old(freePages)
      ensures old(freePages) == 0 ==> f.None? && unchanged(this)
      ensures f.Some? ==>
                && f.value in old(role) && old(role)[f.value].Free?
                && f.value in role && role[f.value].Frame?
                && Mapped(old(mem), mem, old(role), root, vp, f.value, 1, perm)
                && Grew(old(mem), old(role), mem, role, root, {})
                && f.value in mem && mem[f.value] == page
    {
      hide TreeOk, FreeOk, SameMaps, Grew, Mapped, Lookup;
      var dst := Alloc();
      if dst.None? {
        return None;
      }
      ghost var mem1, role1 := mem, role;
      NonFreeWrite(mem, role, free, head, freePages, dst.value, page);
      DataWriteSame(mem, role, kernelRoot, dst.value, page);
      mem := mem[dst.value := page];
      ghost var mem2 := mem;
      FreshNone(old(mem), mem1, mem2, old(role), role1, root, vp, dst.value);
      var ok := MapPages(root, vp, dst.value, 1, perm);
      if !ok {
        return None;
      }
      FreshMapped(old(mem), mem1, mem2, mem, old(role), root, vp, dst.value, perm);
      FreshGrew(old(mem), old(role), mem2, mem, role, kernelRoot, root, dst.value, page);
      return dst;
    }
  }
}
