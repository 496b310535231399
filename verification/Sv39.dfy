/**
 The address translation of the hardware: the algorithm of section 4.3.2 of the RISC-V
 Privileged Architecture (version 20211203) with the Sv39 parameters of section 4.4,
 and its agreement with the kernel's own `walk`/`translate`.
 */
module Sv39 {
  import opened Options
  import opened PageTables

  datatype Access = Load | Store | Fetch
  datatype Mode = User | Supervisor(sum: bool)

  predicate HasA(e: nat) { (e / 64) % 2 == 1 }
  predicate HasD(e: nat) { (e / 128) % 2 == 1 }
  /** Bits 63-54 are reserved. */
  predicate Reserved(e: nat) { e >= 0x40_0000_0000_0000 }

  function VpnAt(vp: nat, i: nat): nat
  {
    if i == 2 then V2(vp) else if i == 1 then V1(vp) else V0(vp)
  }

  /** Steps 2 to 4: descend until a leaf; the leaf and its level, or a page fault. */
  function FindLeaf(mem: Mem, a: nat, vp: nat, i: nat): Option<(nat, nat)>
    decreases i
  {
    var e := Rd(mem, a, VpnAt(vp, i));
    if !IsValid(e) || (!HasR(e) && HasW(e)) || Reserved(e) then None
    else if HasR(e) || HasX(e) then Some((e, i))
    else if i == 0 then None
    else FindLeaf(mem, Ppn(e), vp, i - 1)
  }

  /** Step 5. */
  predicate Allowed(e: nat, acc: Access, mode: Mode)
  {
    && (match mode
        case User => HasU(e)
        case Supervisor(sum) => !HasU(e) || (sum && !acc.Fetch?))
    && (match acc
        case Load => HasR(e)
        case Store => HasW(e)
        case Fetch => HasX(e))
  }

  /** Low physical page bits that must be zero, and are taken from the address, in a superpage. */
  function Span(i: nat): nat
  {
    if i == 2 then 262144 else if i == 1 then 512 else 1
  }

  /** Steps 1 to 8: the physical page, or None for a page fault (MXR = 0, A/D not updated by hardware). */
  function HwTranslate(mem: Mem, root: nat, vp: nat, acc: Access, mode: Mode): Option<nat>
  {
    match FindLeaf(mem, root, vp, 2)
    case None => None
    case Some((e, i)) =>
      if !Allowed(e, acc, mode) then None
      else if Ppn(e) % Span(i) != 0 then None
      else if !HasA(e) || (acc.Store? && !HasD(e)) then None
      else Some(Ppn(e) + vp % Span(i))
  }

  /** Section 4.4: bits 63 to 39 of an address must equal bit 38. */
  predicate Canonical(va: nat) { va < 0x40_0000_0000 || 0xffff_ffc0_0000_0000 <= va < 0x1_0000_0000_0000_0000 }

  /** The virtual page number of a canonical address: its 39 low bits, without the offset. */
  function PageOf(va: nat): (vp: nat)
    ensures vp < VP_END
  {
    va / 4096 % VP_END
  }

  lemma PageOfCanonical(va: nat)
    requires Canonical(va)
    ensures va < 0x40_0000_0000 ==> PageOf(va) == va / 4096 < VP_MAX
    ensures va >= 0x40_0000_0000 ==> VP_MAX <= PageOf(va) == va / 4096 - 0xf_ffff_f800_0000
  {
  }

  /** Physical memory of the machine is small enough that no entry reaches the reserved bits. */
  predicate SmallPages(role: Roles)
  {
    forall p :: p in role ==> p < VP_MAX
  }

  lemma PtrBits(p: nat)
    requires p < VP_MAX
    ensures IsValid(Ptr(p)) && Ppn(Ptr(p)) == p && !HasR(Ptr(p)) && !HasW(Ptr(p)) && !HasX(Ptr(p)) && !Reserved(Ptr(p))
  {
    assert Ptr(p) / 2 == 512 * p;
    assert Ptr(p) / 4 == 256 * p;
    assert Ptr(p) / 8 == 128 * p;
    Split2(256 * p, 0);
    Split2(128 * p, 0);
    Split2(64 * p, 0);
  }

  lemma LeafStatus(f: nat, perm: nat)
    requires f < VP_END && IsPerm(perm)
    ensures HasA(LeafPte(f, perm)) && HasD(LeafPte(f, perm)) && !Reserved(LeafPte(f, perm))
  {
    var e := LeafPte(f, perm);
    assert e / 64 == 16 * f + 3;
    assert e / 128 == 8 * f + 1;
    Split2(8 * f + 1, 1);
    Split2(4 * f, 1);
  }

  /** Every leaf entry of every table the kernel builds, as the hardware reads it. */
  lemma LeafShape(mem: Mem, role: Roles, kroot: nat, root: nat, vp: nat)
    requires TreeOk(mem, role, kroot) && SmallPages(role) && root in role && role[root].Root? && vp < VP_END
    requires Lookup(mem, root, vp).Some?
    ensures
      var e := Lookup(mem, root, vp).value;
      && e == LeafPte(Ppn(e), PermOf(e)) && IsPerm(PermOf(e)) && Ppn(e) < VP_END
  {
    hide LeafPte, PermOf, HasU, IsPerm;
    LowOfRole(mem, role, kroot, root, vp);
    var low := LowOf(mem, root, vp).value;
    assert DownOk(mem, role, kroot, low, V0(vp));
    assert UpOk(mem, role, kroot, low);
  }

  /** No upper-level entry is ever a leaf, so the hardware stops exactly where the kernel's walk does. */
  lemma WalkAgrees(mem: Mem, role: Roles, kroot: nat, root: nat, vp: nat)
    requires TreeOk(mem, role, kroot) && SmallPages(role) && root in role && role[root].Root? && vp < VP_END
    ensures FindLeaf(mem, root, vp, 2) == match Lookup(mem, root, vp) case None => None case Some(e) => Some((e, 0))
  {
    assert DownOk(mem, role, kroot, root, V2(vp));
    assert DownOk(mem, role, kroot, kroot, V2(vp));
    var e2 := Rd(mem, root, V2(vp));
    if IsValid(e2) {
      PtrBits(Ppn(e2));
      assert DownOk(mem, role, kroot, Ppn(e2), V1(vp));
      var e1 := Rd(mem, Ppn(e2), V1(vp));
      if IsValid(e1) {
        PtrBits(Ppn(e1));
        var e0 := Rd(mem, Ppn(e1), V0(vp));
        if IsValid(e0) {
          LeafShape(mem, role, kroot, root, vp);
          LeafBits(Ppn(e0), PermOf(e0));
          LeafStatus(Ppn(e0), PermOf(e0));
        }
        assert FindLeaf(mem, Ppn(e1), vp, 0) == if IsValid(e0) then Some((e0, 0)) else None;
      }
    }
  }

  /** On every table the kernel builds, an access succeeds if and only if the software translation
      exists and its bits allow the access, and then the hardware goes to the page `translate` names. */
  lemma TranslateAgrees(mem: Mem, role: Roles, kroot: nat, root: nat, vp: nat, acc: Access, mode: Mode)
    requires TreeOk(mem, role, kroot) && SmallPages(role) && root in role && role[root].Root? && vp < VP_END
    ensures HwTranslate(mem, root, vp, acc, mode) ==
            match Lookup(mem, root, vp)
            case None => None
            case Some(e) => if Allowed(e, acc, mode) then Some(Ppn(e)) else None
  {
    WalkAgrees(mem, role, kroot, root, vp);
    if Lookup(mem, root, vp).Some? {
      var e := Lookup(mem, root, vp).value;
      LeafShape(mem, role, kroot, root, vp);
      LeafStatus(Ppn(e), PermOf(e));
    }
  }

  /** Protection, for every reachable table: user code can only touch the private gigabyte, the kernel
      never executes user pages nor touches them without SUM, and nothing is writable and executable. */
  lemma Protection(mem: Mem, role: Roles, kroot: nat, root: nat, vp: nat)
    requires TreeOk(mem, role, kroot) && SmallPages(role) && root in role && role[root].Root? && vp < VP_END
    ensures (exists acc :: HwTranslate(mem, root, vp, acc, User).Some?) ==> root != kroot && V2(vp) == USER_SLOT
    ensures !(HwTranslate(mem, root, vp, Store, User).Some? && HwTranslate(mem, root, vp, Fetch, User).Some?)
    ensures forall sum ::
              !(HwTranslate(mem, root, vp, Store, Supervisor(sum)).Some? &&
                HwTranslate(mem, root, vp, Fetch, Supervisor(sum)).Some?)
    ensures forall acc :: HwTranslate(mem, root, vp, acc, Supervisor(false)).Some? ==>
        HwTranslate(mem, root, vp, acc, Supervisor(false)) == Some(vp)
    ensures V2(vp) == USER_SLOT ==> forall sum :: HwTranslate(mem, root, vp, Fetch, Supervisor(sum)).None?
  {
    if Lookup(mem, root, vp).Some? {
      LeafWhere(mem, role, kroot, root, vp);
    }
    hide TreeOk, Lookup, HwTranslate, IsValid, Ppn, HasR, HasW, HasX, HasU;
    forall acc, mode ensures HwTranslate(mem, root, vp, acc, mode) ==
            match Lookup(mem, root, vp)
            case None => None
            case Some(e) => if Allowed(e, acc, mode) then Some(Ppn(e)) else None
    {
      TranslateAgrees(mem, role, kroot, root, vp, acc, mode);
    }
  }

  lemma LeafWhere(mem: Mem, role: Roles, kroot: nat, root: nat, vp: nat)
    requires TreeOk(mem, role, kroot) && SmallPages(role) && root in role && role[root].Root? && vp < VP_END
    requires Lookup(mem, root, vp).Some?
    ensures
      var e := Lookup(mem, root, vp).value;
      && (HasU(e) <==> V2(vp) == USER_SLOT) && (HasU(e) ==> root != kroot)
      && (!HasU(e) ==> Ppn(e) == vp)
      && !(HasW(e) && HasX(e))
  {
    hide HasU, HasW, HasX, HasR, IsValid, LeafPte, Ppn, PermOf;
    LeafShape(mem, role, kroot, root, vp);
    var e := Lookup(mem, root, vp).value;
    NotWX(Ppn(e), PermOf(e));
    LowOfRole(mem, role, kroot, root, vp);
    var low := LowOf(mem, root, vp).value;
    assert DownOk(mem, role, kroot, low, V0(vp));
    assert UpOk(mem, role, kroot, role[low].mid);
    assert VpOf(V2(vp), V1(vp), V0(vp)) == vp;
  }

  lemma NotWX(f: nat, perm: nat)
    requires IsPerm(perm)
    ensures !(HasW(LeafPte(f, perm)) && HasX(LeafPte(f, perm)))
  {
    LeafBits(f, perm);
    hide LeafPte;
  }
}
