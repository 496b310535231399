/**
 Sv39 page tables as they lie in physical memory (src/vm.rs).

 Physical memory is a map from page number (address / 4096) to the 512 words of the page.
 A page table is nothing but such pages: its meaning is read off by `Lookup`, which follows
 the words exactly as `walk` and `translate` do.

 The proofs carry a *role* for each page of the allocator's pool.  Since a role is a function
 of the page, "every page has exactly one owner" holds by construction; what has to be
 preserved is that the roles tell the truth about the words, which is `TreeOk`.
 */
module PageTables {
  import opened Options

  type Mem = map<nat, seq<nat>>

  const WORDS := 512
  /** Virtual page numbers below VA_MAX = 2^38. */
  const VP_MAX := 0x400_0000
  /** All 2^27 virtual pages of Sv39.  The upper half stands for addresses with bit 38 set. */
  const VP_END := 0x800_0000
  /** Top-level slot of the user half: USER_TEXT >> 30. */
  const USER_SLOT := 1

  // --- page table entries (see Bits for the bit expressions these stand for) ---

  const PTE_R := 2
  const PTE_W := 4
  const PTE_X := 8
  const PTE_U := 16

  predicate IsValid(e: nat) { e % 2 == 1 }
  function Ppn(e: nat): nat { e / 1024 }
  /** R, W, X and U of an entry: `e & PERM_MASK`. */
  function PermOf(e: nat): nat { (e / 2) % 16 * 2 }
  predicate HasR(e: nat) { (e / 2) % 2 == 1 }
  predicate HasW(e: nat) { (e / 4) % 2 == 1 }
  predicate HasX(e: nat) { (e / 8) % 2 == 1 }
  predicate HasU(e: nat) { (e / 16) % 2 == 1 }

  /** `pa_to_pte(page) | PTE_V` */
  function Ptr(p: nat): nat { p * 1024 + 1 }
  /** `pa_to_pte(page) | perm | PTE_A | PTE_D | PTE_V` */
  function LeafPte(f: nat, perm: nat): nat { f * 1024 + perm + 193 }

  /** The permissions the kernel maps with: R, RW or RX, each with or without U. */
  predicate IsPerm(perm: nat)
  {
    perm == 2 || perm == 6 || perm == 10 || perm == 18 || perm == 22 || perm == 26
  }

  // --- the three indices of a virtual page number ---

  function V2(vp: nat): nat { vp / 262144 }
  function V1(vp: nat): nat { (vp / 512) % 512 }
  function V0(vp: nat): nat { vp % 512 }
  function VpOf(i2: nat, i1: nat, i0: nat): nat { i2 * 262144 + i1 * 512 + i0 }

  // --- reading tables ---

  function Rd(mem: Mem, p: nat, i: nat): nat
  {
    if p in mem && i < |mem[p]| then mem[p][i] else 0
  }

  /** The level-0 table that covers `vp`, if the two upper levels are present. */
  function LowOf(mem: Mem, root: nat, vp: nat): Option<nat>
  {
    var e2 := Rd(mem, root, V2(vp));
    if !IsValid(e2) then None else
    var e1 := Rd(mem, Ppn(e2), V1(vp));
    if !IsValid(e1) then None else Some(Ppn(e1))
  }

  /** The valid leaf entry for `vp`, as `translate` finds it. */
  function Lookup(mem: Mem, root: nat, vp: nat): Option<nat>
  {
    match LowOf(mem, root, vp)
    case None => None
    case Some(low) =>
      var e0 := Rd(mem, low, V0(vp));
      if IsValid(e0) then Some(e0) else None
  }

  // --- who owns a page ---

  /** What the kernel uses a pool page for.
      `Loose` is a page handed out by the allocator and not yet (or no longer) linked anywhere. */
  datatype Role =
    | Free
    | Loose
    | Root
    | Mid(root: nat, at: nat)
    | Low(mid: nat, at: nat)
    | Frame(low: nat, at: nat)
  {
    predicate Table?() { Root? || Mid? || Low? }
  }

  type Roles = map<nat, Role>

  /** The slots of a root that lead into tables of its own: slot 1 for a process, the others for the kernel. */
  predicate Private(kroot: nat, root: nat, i: nat)
  {
    if root == kroot then i != USER_SLOT else i == USER_SLOT
  }

  /** The root of the address space page `p` belongs to, if it belongs to one. */
  function Owner(role: Roles, p: nat): (r: Option<nat>)
  {
    if p !in role then None else
    match role[p]
    case Free => None
    case Loose => None
    case Root => Some(p)
    case Mid(r, _) => Some(r)
    case Low(m, _) => MidOwner(role, m)
    case Frame(l, _) => if l in role && role[l].Low? then MidOwner(role, role[l].mid) else None
  }

  function MidOwner(role: Roles, m: nat): Option<nat>
  {
    if m in role && role[m].Mid? then Some(role[m].root) else None
  }

  function Owned(role: Roles, root: nat): set<nat>
  {
    set p | p in role && Owner(role, p) == Some(root)
  }

  // --- the invariant ---

  /** The role of a linked page names the one table word that points at it. */
  predicate UpOk(mem: Mem, role: Roles, kroot: nat, p: nat)
    requires p in role
  {
    match role[p]
    case Mid(r, i) =>
      r in role && role[r].Root? && i < WORDS && Private(kroot, r, i) && Rd(mem, r, i) == Ptr(p)
    case Low(m, i) =>
      m in role && role[m].Mid? && i < WORDS && Rd(mem, m, i) == Ptr(p)
    case Frame(l, i) =>
      && l in role && role[l].Low? && i < WORDS
      && MidOwner(role, role[l].mid) != Some(kroot)
      && IsValid(Rd(mem, l, i)) && Ppn(Rd(mem, l, i)) == p
    case _ => true
  }

  /** Every valid table word points at the one page whose role names it. */
  predicate DownOk(mem: Mem, role: Roles, kroot: nat, p: nat, i: nat)
    requires p in role
  {
    var e := Rd(mem, p, i);
    match role[p]
    case Root =>
      if Private(kroot, p, i) then
        IsValid(e) ==> e == Ptr(Ppn(e)) && Ppn(e) in role && role[Ppn(e)] == Mid(p, i)
      else if p == kroot then !IsValid(e)
      else e == Rd(mem, kroot, i)
    case Mid(_, _) =>
      IsValid(e) ==> e == Ptr(Ppn(e)) && Ppn(e) in role && role[Ppn(e)] == Low(p, i)
    case Low(m, _) =>
      IsValid(e) ==> LeafOk(role, kroot, p, i, e)
    case _ => true
  }

  /** Leaves: a process maps its own frames, with U; the kernel maps page n to page n, without U.
      Nothing is both writable and executable (see `IsPerm`). */
  predicate LeafOk(role: Roles, kroot: nat, low: nat, i: nat, e: nat)
    requires low in role && role[low].Low?
  {
    && e == LeafPte(Ppn(e), PermOf(e)) && IsPerm(PermOf(e))
    && var m := role[low].mid;
       if MidOwner(role, m) == Some(kroot) then
         !HasU(e) && m in role && role[m].Mid? && Ppn(e) == VpOf(role[m].at, role[low].at, i)
       else
         HasU(e) && Ppn(e) in role && role[Ppn(e)] == Frame(low, i)
  }

  ghost predicate PagesOk(mem: Mem, role: Roles)
  {
    forall p :: p in role ==> p in mem && |mem[p]| == WORDS
  }

  ghost predicate TreeOk(mem: Mem, role: Roles, kroot: nat)
  {
    && PagesOk(mem, role)
    && kroot in role && role[kroot].Root?
    && (forall p {:trigger UpOk(mem, role, kroot, p)} :: p in role ==> UpOk(mem, role, kroot, p))
    && (forall p, i: nat {:trigger DownOk(mem, role, kroot, p, i)} :: p in role && i < WORDS ==>
          DownOk(mem, role, kroot, p, i))
  }

  /** Only the kernel's own root exists; true while the kernel table is being built. */
  predicate OnlyRoot(role: Roles, kroot: nat)
  {
    forall p :: p in role && role[p].Root? ==> p == kroot
  }

  // --- reading tables under the invariant ---

  /** What the two upper levels lead to, and which slot pays for it. */
  lemma LowOfRole(mem: Mem, role: Roles, kroot: nat, root: nat, vp: nat)
    requires TreeOk(mem, role, kroot)
    requires root in role && role[root].Root? && vp < VP_END
    requires LowOf(mem, root, vp).Some?
    ensures
      var low := LowOf(mem, root, vp).value;
      && low in role && role[low].Low? && role[low].at == V1(vp)
      && var m := role[low].mid;
         m in role && role[m] == Mid(if Private(kroot, root, V2(vp)) then root else kroot, V2(vp))
         && Rd(mem, root, V2(vp)) == Ptr(m) && Rd(mem, m, V1(vp)) == Ptr(low)
  {
    assert DownOk(mem, role, kroot, root, V2(vp));
    if !Private(kroot, root, V2(vp)) {
      assert DownOk(mem, role, kroot, kroot, V2(vp));
    }
    var m := Ppn(Rd(mem, root, V2(vp)));
    assert DownOk(mem, role, kroot, m, V1(vp));
  }

  // --- the three kinds of write the kernel makes ---

  predicate ZeroPage(page: seq<nat>)
  {
    |page| == WORDS && forall k :: 0 <= k < WORDS ==> page[k] == 0
  }

  function SetWord(mem: Mem, p: nat, i: nat, e: nat): Mem
    requires p in mem && i < |mem[p]|
  {
    var page: seq<nat> := mem[p][i := e];
    mem[p := page]
  }

  /** May a new table be linked into slot `i` of table `t`? */
  predicate CanLink(mem: Mem, role: Roles, kroot: nat, t: nat, i: nat)
  {
    && t in role && i < WORDS && !IsValid(Rd(mem, t, i))
    && (role[t].Mid? || (role[t].Root? && Private(kroot, t, i)))
    && (Owner(role, t) == Some(kroot) ==> OnlyRoot(role, kroot))
  }

  function LinkRole(role: Roles, t: nat, i: nat): Role
    requires t in role
  {
    if role[t].Root? then Mid(t, i) else Low(t, i)
  }

  /** Linking a zeroed page as the next table keeps the invariant. */
  lemma LinkKeepsTree(mem: Mem, role: Roles, kroot: nat, t: nat, i: nat, q: nat)
    requires TreeOk(mem, role, kroot) && CanLink(mem, role, kroot, t, i)
    requires q in role && role[q].Loose? && ZeroPage(mem[q])
    ensures TreeOk(SetWord(mem, t, i, Ptr(q)), role[q := LinkRole(role, t, i)], kroot)
  {
    var mem', role' := SetWord(mem, t, i, Ptr(q)), role[q := LinkRole(role, t, i)];
    forall p | p in role' ensures UpOk(mem', role', kroot, p) {
      LinkUp(mem, role, kroot, t, i, q, p);
    }
    forall p, k: nat | p in role' && k < WORDS ensures DownOk(mem', role', kroot, p, k) {
      LinkDown(mem, role, kroot, t, i, q, p, k);
    }
  }

  lemma PtrFields(p: nat)
    ensures IsValid(Ptr(p)) && Ppn(Ptr(p)) == p
  {
    Split2(512 * p, 1);
  }

  lemma ZeroInvalid()
    ensures !IsValid(0)
  {
  }

  lemma LinkUp(mem: Mem, role: Roles, kroot: nat, t: nat, i: nat, q: nat, p: nat)
    requires TreeOk(mem, role, kroot) && CanLink(mem, role, kroot, t, i)
    requires q in role && role[q].Loose? && ZeroPage(mem[q]) && p in role
    ensures UpOk(SetWord(mem, t, i, Ptr(q)), role[q := LinkRole(role, t, i)], kroot, p)
  {
    hide IsValid, Ppn, Ptr, LeafPte, HasU, IsPerm, PermOf;
    PtrFields(q);
    PtrFields(p);
    assert UpOk(mem, role, kroot, p);
    if role[p].Frame? {
      assert UpOk(mem, role, kroot, role[p].low);
    }
  }

  lemma LinkDown(mem: Mem, role: Roles, kroot: nat, t: nat, i: nat, q: nat, p: nat, k: nat)
    requires TreeOk(mem, role, kroot) && CanLink(mem, role, kroot, t, i)
    requires q in role && role[q].Loose? && ZeroPage(mem[q]) && p in role && k < WORDS
    ensures DownOk(SetWord(mem, t, i, Ptr(q)), role[q := LinkRole(role, t, i)], kroot, p, k)
  {
    hide IsValid, Ppn, Ptr, LeafPte, HasU, IsPerm, PermOf;
    PtrFields(q);
    ZeroInvalid();
    assert DownOk(mem, role, kroot, p, k);
    assert UpOk(mem, role, kroot, p);
  }

  /** ... and changes no translation of any address space. */
  lemma LinkKeepsLookup(mem: Mem, role: Roles, kroot: nat, t: nat, i: nat, q: nat, r: nat, vp: nat)
    requires TreeOk(mem, role, kroot) && CanLink(mem, role, kroot, t, i)
    requires q in role && role[q].Loose? && ZeroPage(mem[q])
    requires r in role && role[r].Root? && vp < VP_END
    ensures Lookup(SetWord(mem, t, i, Ptr(q)), r, vp) == Lookup(mem, r, vp)
  {
    hide IsValid, Ppn, Ptr, LeafPte, HasU, IsPerm, PermOf;
    PtrFields(q);
    ZeroInvalid();
    assert DownOk(mem, role, kroot, r, V2(vp));
    assert DownOk(mem, role, kroot, kroot, V2(vp));
    if LowOf(mem, r, vp).Some? {
      LowOfRole(mem, role, kroot, r, vp);
    }
  }

  /** May page `f` be mapped with `perm` at slot `i` of the level-0 table `low`? */
  predicate CanMap(mem: Mem, role: Roles, kroot: nat, low: nat, i: nat, f: nat, perm: nat)
  {
    && low in role && role[low].Low? && i < WORDS && !IsValid(Rd(mem, low, i))
    && IsPerm(perm)
    && var m := role[low].mid;
       m in role && role[m].Mid? &&
       if role[m].root == kroot then
         !HasU(perm) && f == VpOf(role[m].at, role[low].at, i)
       else
         HasU(perm) && f in role && role[f].Loose?
  }

  /** A mapped frame of a process belongs to the slot that maps it; the kernel's identity map owns nothing. */
  function MapRole(role: Roles, kroot: nat, low: nat, i: nat, f: nat): Roles
    requires low in role && role[low].Low?
  {
    if MidOwner(role, role[low].mid) == Some(kroot) then role else role[f := Frame(low, i)]
  }

  lemma MapKeepsTree(mem: Mem, role: Roles, kroot: nat, low: nat, i: nat, f: nat, perm: nat)
    requires TreeOk(mem, role, kroot) && CanMap(mem, role, kroot, low, i, f, perm)
    ensures TreeOk(SetWord(mem, low, i, LeafPte(f, perm)), MapRole(role, kroot, low, i, f), kroot)
  {
    var mem', role' := SetWord(mem, low, i, LeafPte(f, perm)), MapRole(role, kroot, low, i, f);
    forall p | p in role' ensures UpOk(mem', role', kroot, p) {
      MapUp(mem, role, kroot, low, i, f, perm, p);
    }
    forall p, k: nat | p in role' && k < WORDS ensures DownOk(mem', role', kroot, p, k) {
      MapDown(mem, role, kroot, low, i, f, perm, p, k);
    }
  }

  lemma MapUp(mem: Mem, role: Roles, kroot: nat, low: nat, i: nat, f: nat, perm: nat, p: nat)
    requires TreeOk(mem, role, kroot) && CanMap(mem, role, kroot, low, i, f, perm) && p in role
    ensures UpOk(SetWord(mem, low, i, LeafPte(f, perm)), MapRole(role, kroot, low, i, f), kroot, p)
  {
    hide LeafPte, HasU, IsValid, Ppn;
    LeafFields(f, perm);
    assert UpOk(mem, role, kroot, p);
    assert UpOk(mem, role, kroot, low);
    if role[p].Frame? {
      assert UpOk(mem, role, kroot, role[p].low);
    }
  }

  lemma MapDown(mem: Mem, role: Roles, kroot: nat, low: nat, i: nat, f: nat, perm: nat, p: nat, k: nat)
    requires TreeOk(mem, role, kroot) && CanMap(mem, role, kroot, low, i, f, perm) && p in role && k < WORDS
    ensures DownOk(SetWord(mem, low, i, LeafPte(f, perm)), MapRole(role, kroot, low, i, f), kroot, p, k)
  {
    assert DownOk(mem, role, kroot, p, k);
    assert UpOk(mem, role, kroot, p);
    LeafBits(f, perm);
    hide LeafPte, HasU;
  }

  /** The fields of a leaf entry read back as they were written. */
  lemma LeafBits(f: nat, perm: nat)
    requires IsPerm(perm)
    ensures IsValid(LeafPte(f, perm)) && Ppn(LeafPte(f, perm)) == f && PermOf(LeafPte(f, perm)) == perm
    ensures HasW(LeafPte(f, perm)) == HasW(perm) && HasX(LeafPte(f, perm)) == HasX(perm)
    ensures HasU(LeafPte(f, perm)) == HasU(perm) && HasR(LeafPte(f, perm))
  {
    LeafFields(f, perm);
    LeafR(f, perm);
    LeafW(f, perm);
    LeafX(f, perm);
    LeafU(f, perm);
  }

  lemma LeafFields(f: nat, perm: nat)
    requires IsPerm(perm)
    ensures IsValid(LeafPte(f, perm)) && Ppn(LeafPte(f, perm)) == f && PermOf(LeafPte(f, perm)) == perm
  {
    assert LeafPte(f, perm) / 2 == 16 * (32 * f + 6) + perm / 2;
    Split16(32 * f + 6, perm / 2);
  }

  lemma LeafR(f: nat, perm: nat)
    requires IsPerm(perm)
    ensures HasR(LeafPte(f, perm))
  {
    assert LeafPte(f, perm) / 2 == f * 512 + perm / 2 + 96;
    Split2(f * 256 + 48, perm / 2);
  }

  lemma LeafW(f: nat, perm: nat)
    requires IsPerm(perm)
    ensures HasW(LeafPte(f, perm)) == HasW(perm)
  {
    var q, r := perm / 4, perm % 4;
    assert LeafPte(f, perm) == 4 * (f * 256 + 48 + q) + (r + 1);
    Split4(f * 256 + 48 + q, r + 1);
    Split2(f * 128 + 24, q);
  }

  lemma LeafX(f: nat, perm: nat)
    requires IsPerm(perm)
    ensures HasX(LeafPte(f, perm)) == HasX(perm)
  {
    var q, r := perm / 8, perm % 8;
    assert LeafPte(f, perm) == 8 * (f * 128 + 24 + q) + (r + 1);
    Split8(f * 128 + 24 + q, r + 1);
    Split2(f * 64 + 12, q);
  }

  lemma LeafU(f: nat, perm: nat)
    requires IsPerm(perm)
    ensures HasU(LeafPte(f, perm)) == HasU(perm)
  {
    var q, r := perm / 16, perm % 16;
    assert LeafPte(f, perm) == 16 * (f * 64 + 12 + q) + (r + 1);
    Split16(f * 64 + 12 + q, r + 1);
    Split2(f * 32 + 6, q);
  }

  lemma Split2(k: nat, q: nat) ensures (2 * k + q) % 2 == q % 2 {}
  lemma Split4(k: nat, r: nat) requires r < 4 ensures (4 * k + r) / 4 == k {}
  lemma Split8(k: nat, r: nat) requires r < 8 ensures (8 * k + r) / 8 == k {}
  lemma Split16(k: nat, r: nat) requires r < 16 ensures (16 * k + r) / 16 == k && (16 * k + r) % 16 == r {}

  /** Writing a leaf changes exactly the one translation it is for, in the one space it belongs to
      (a kernel leaf is seen by every root, which is why `CanLink` and `CanMap` treat it apart). */
  lemma MapLookup(mem: Mem, role: Roles, kroot: nat, low: nat, i: nat, f: nat, perm: nat, r: nat, vp: nat)
    requires TreeOk(mem, role, kroot) && CanMap(mem, role, kroot, low, i, f, perm)
    requires r in role && role[r].Root? && vp < VP_END
    ensures Lookup(SetWord(mem, low, i, LeafPte(f, perm)), r, vp) ==
            if LowOf(mem, r, vp) == Some(low) && V0(vp) == i then Some(LeafPte(f, perm)) else Lookup(mem, r, vp)
    ensures LowOf(mem, r, vp) == Some(low) ==>
              && V1(vp) == role[low].at && V2(vp) == role[role[low].mid].at
              && (r == role[role[low].mid].root || role[role[low].mid].root == kroot)
  {
    hide IsValid, Ppn, Ptr, LeafPte, HasU, IsPerm, PermOf;
    LeafFields(f, perm);
    assert DownOk(mem, role, kroot, r, V2(vp));
    assert DownOk(mem, role, kroot, kroot, V2(vp));
    if LowOf(mem, r, vp).Some? {
      LowOfRole(mem, role, kroot, r, vp);
    }
  }

  /** Any write to a page that is not a table is invisible to translation. */
  lemma DataWrite(mem: Mem, role: Roles, kroot: nat, p: nat, page: seq<nat>)
    requires TreeOk(mem, role, kroot)
    requires p in role && !role[p].Table?() && |page| == WORDS
    ensures TreeOk(mem[p := page], role, kroot)
    ensures forall r, vp: nat :: r in role && role[r].Root? && vp < VP_END ==>
        Lookup(mem[p := page], r, vp) == Lookup(mem, r, vp)
  {
    hide IsValid, Ppn, Ptr, LeafPte, HasU, IsPerm, PermOf;
    var mem' := mem[p := page];
    forall x | x in role ensures UpOk(mem', role, kroot, x) {
      assert UpOk(mem, role, kroot, x);
    }
    forall x, k: nat | x in role && k < WORDS ensures DownOk(mem', role, kroot, x, k) {
      assert DownOk(mem, role, kroot, x, k);
    }
    forall r, vp: nat | r in role && role[r].Root? && vp < VP_END ensures Lookup(mem', r, vp) == Lookup(mem, r, vp) {
      assert DownOk(mem, role, kroot, r, V2(vp));
      assert DownOk(mem, role, kroot, kroot, V2(vp));
      if LowOf(mem, r, vp).Some? {
        LowOfRole(mem, role, kroot, r, vp);
      }
    }
  }

  /** Taking a page off or putting it on the free list touches no tree. */
  lemma Relabel(mem: Mem, role: Roles, kroot: nat, p: nat, x: Role)
    requires TreeOk(mem, role, kroot)
    requires p in role && (role[p].Free? || role[p].Loose?) && (x.Free? || x.Loose?)
    ensures TreeOk(mem, role[p := x], kroot)
  {
    hide IsValid, Ppn, Ptr, LeafPte, HasU, IsPerm, PermOf;
    var role' := role[p := x];
    forall y | y in role' ensures UpOk(mem, role', kroot, y) {
      assert UpOk(mem, role, kroot, y);
    }
    forall y, k: nat | y in role' && k < WORDS ensures DownOk(mem, role', kroot, y, k) {
      assert DownOk(mem, role, kroot, y, k);
    }
  }
}
