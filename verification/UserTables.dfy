/**
 Process address spaces (src/vm.rs:209-317, src/proc.rs:196-236): building, cloning and freeing
 a table whose slot 1 is private and whose other slots are the kernel's.
 */
module UserTables {
  import opened Options
  import opened PageTables
  import opened Phys

  /** First virtual page of the private slot. */
  const USER_VP := 0x4_0000

  // --- make_user_table ---

  /** A zeroed page filled with the kernel's top-level entries is a root that sees exactly the kernel map. */
  lemma NewRoot(mem: Mem, role: Roles, kroot: nat, q: nat)
    requires TreeOk(mem, role, kroot) && q in role && (role[q].Free? || role[q].Loose?)
    ensures
      var mem', role' := mem[q := mem[kroot]], role[q := Root];
      && TreeOk(mem', role', kroot) && SameMaps(mem, mem', role)
      && forall v: nat :: v < VP_END ==> Lookup(mem', q, v) == Lookup(mem, kroot, v)
  {
    hide IsValid, Ppn, Ptr, LeafPte, HasU, IsPerm, PermOf;
    var mem1, role' := mem[q := mem[kroot]], role[q := Root];
    DataWrite(mem, role, kroot, q, mem[kroot]);
    forall p | p in role' ensures UpOk(mem1, role', kroot, p) {
      assert UpOk(mem1, role, kroot, p);
    }
    forall p, k: nat | p in role' && k < WORDS ensures DownOk(mem1, role', kroot, p, k) {
      assert DownOk(mem1, role, kroot, p, k);
      assert DownOk(mem1, role, kroot, kroot, k);
      assert UpOk(mem1, role, kroot, p);
    }
    forall v: nat | v < VP_END ensures Lookup(mem1, q, v) == Lookup(mem, kroot, v) {
      assert Lookup(mem1, kroot, v) == Lookup(mem, kroot, v);
    }
  }

  lemma NewRootMaps(m0: Mem, m1: Mem, m2: Mem, r0: Roles, kroot: nat, q: nat)
    requires kroot in r0 && r0[kroot].Root? && q in r0 && r0[q].Free?
    requires SameMaps(m0, m1, r0) && SameMaps(m1, m2, r0[q := Loose])
    requires forall v: nat :: v < VP_END ==> Lookup(m2, q, v) == Lookup(m1, kroot, v)
    ensures SameMaps(m0, m2, r0)
    ensures forall v: nat :: v < VP_END ==> Lookup(m2, q, v) == Lookup(m0, kroot, v)
  {
  }

  method MakeUserTable(k: PhysMem) returns (root: Option<nat>)
    requires k.Booted()
    modifies k
    ensures k.Booted() && k.kernelRoot == old(k.kernelRoot)
    ensures root.None? ==> unchanged(k) && k.freePages == 0
    ensures root.Some? ==>
              && root.value in old(k.role) && old(k.role)[root.value].Free?
              && k.role == old(k.role)[root.value := Root]
              && k.kernelRoot in old(k.mem) && k.mem == old(k.mem)[root.value := old(k.mem)[k.kernelRoot]]
              && SameMaps(old(k.mem), k.mem, old(k.role))
              && forall v: nat :: v < VP_END ==> Lookup(k.mem, root.value, v) == old(Lookup(k.mem, k.kernelRoot, v))
  {
    hide TreeOk, FreeOk, SameMaps, Lookup;
    KernelRootIn(k.mem, k.role, k.kernelRoot);
    root := k.Alloc();
    if root.None? {
      return;
    }
    var r, kroot := root.value, k.kernelRoot;
    ghost var mem1 := k.mem;
    NonFreeRole(k.mem, k.role, k.free, k.head, k.freePages, r, Root);
    NewRoot(mem1, k.role, kroot, r);
    k.role := k.role[r := Root];
    var i := 0;
    while i < WORDS
      invariant 0 <= i <= WORDS
      invariant k.mem.Keys == mem1.Keys && |k.mem[r]| == WORDS
      invariant forall p :: p in mem1 && p != r ==> k.mem[p] == mem1[p]
      invariant forall j :: 0 <= j < i ==> k.mem[r][j] == mem1[kroot][j]
      invariant FreeOk(k.mem, k.role, k.free, k.head, k.freePages)
      invariant k.role == old(k.role)[r := Root] && k.kernelRoot == kroot
    {
      NonFreeWrite(k.mem, k.role, k.free, k.head, k.freePages, r, k.mem[r][i := k.mem[kroot][i]]);
      k.mem := SetWord(k.mem, r, i, k.mem[kroot][i]);
      i := i + 1;
    }
    assert k.mem[r] == mem1[kroot];
    assert k.mem == mem1[r := mem1[kroot]] == old(k.mem)[r := old(k.mem)[kroot]];
    NewRootMaps(old(k.mem), mem1, k.mem, old(k.role), kroot, r);
  }

  // --- free_user_table ---

  /** The order in which the nested loops of `free_user_table` reach the pages of a space. */
  function Rank(role: Roles, p: nat): nat
  {
    if p !in role then 0 else
    match role[p]
    case Frame(l, b) => if l in role && role[l].Low? then role[l].at * 513 + b else 0
    case Low(_, a) => a * 513 + 512
    case Mid(_, _) => 512 * 513
    case _ => 512 * 513 + 1
  }

  const LAST_RANK := 512 * 513 + 2

  /** Roles once everything of `root` ranked below `t` is free and the rest of it is cut loose. */
  function FreedRole(role: Roles, root: nat, t: nat): (r: Roles)
    ensures r.Keys == role.Keys
  {
    map p | p in role ::
      if Owner(role, p) != Some(root) then role[p] else if Rank(role, p) < t then Role.Free else Loose
  }

  /** A whole space can be cut loose without disturbing any other. */
  lemma DropTree(mem: Mem, role: Roles, kroot: nat, root: nat)
    requires TreeOk(mem, role, kroot) && root in role && role[root].Root? && root != kroot
    ensures TreeOk(mem, FreedRole(role, root, 0), kroot)
  {
    hide IsValid, Ppn, Ptr, LeafPte, HasU, IsPerm, PermOf;
    var role' := FreedRole(role, root, 0);
    assert Owner(role, kroot) == Some(kroot);
    forall p | p in role' ensures UpOk(mem, role', kroot, p) {
      assert UpOk(mem, role, kroot, p);
      if role[p].Frame? {
        assert UpOk(mem, role, kroot, role[p].low);
      }
    }
    forall p, k: nat | p in role' && k < WORDS ensures DownOk(mem, role', kroot, p, k) {
      DropDown(mem, role, kroot, root, p, k);
    }
  }

  lemma DropDown(mem: Mem, role: Roles, kroot: nat, root: nat, p: nat, k: nat)
    requires TreeOk(mem, role, kroot) && root in role && role[root].Root? && root != kroot
    requires p in role && k < WORDS
    ensures DownOk(mem, FreedRole(role, root, 0), kroot, p, k)
  {
    hide IsValid, Ppn, Ptr, LeafPte, HasU, IsPerm, PermOf;
    assert UpOk(mem, role, kroot, p);
    assert DownOk(mem, role, kroot, p, k);
  }

  lemma DropFree(mem: Mem, role: Roles, root: nat, free: seq<nat>, head: nat, n: nat)
    requires FreeOk(mem, role, free, head, n)
    ensures FreeOk(mem, FreedRole(role, root, 0), free, head, n)
  {
  }

  /** No two pages of a space are reached at the same point. */
  lemma RankUnique(mem: Mem, role: Roles, kroot: nat, root: nat, p: nat, q: nat)
    requires TreeOk(mem, role, kroot) && root in role && role[root].Root? && root != kroot
    requires p in role && Owner(role, p) == Some(root) && q in role && Owner(role, q) == Some(root)
    requires Rank(role, p) == Rank(role, q)
    ensures p == q
  {
    hide IsValid, Ppn, LeafPte, HasU, IsPerm, PermOf;
    assert UpOk(mem, role, kroot, p) && UpOk(mem, role, kroot, q);
    if role[p].Frame? {
      assert UpOk(mem, role, kroot, role[p].low);
      assert role[role[p].low].mid in role && UpOk(mem, role, kroot, role[role[p].low].mid);
    }
    if role[q].Frame? {
      assert UpOk(mem, role, kroot, role[q].low);
      assert role[role[q].low].mid in role && UpOk(mem, role, kroot, role[role[q].low].mid);
    }
    if role[p].Low? {
      assert role[p].mid in role && UpOk(mem, role, kroot, role[p].mid);
    }
    if role[q].Low? {
      assert role[q].mid in role && UpOk(mem, role, kroot, role[q].mid);
    }
  }

  /** How far `free_user_table` has come: ranks below `t` are free, everything else is as it was. */
  ghost predicate Freeing(mem0: Mem, role0: Roles, mem: Mem, role: Roles, root: nat, t: nat)
  {
    && role == FreedRole(role0, root, t)
    && forall p :: p in role0 && !role0[p].Free? && !(Owner(role0, p) == Some(root) && Rank(role0, p) < t) ==>
                     p in mem && p in mem0 && mem[p] == mem0[p]
  }

  lemma FreeingSkip(mem0: Mem, role0: Roles, mem: Mem, role: Roles, root: nat, t: nat, u: nat)
    requires Freeing(mem0, role0, mem, role, root, t) && t <= u
    requires forall p :: p in role0 && Owner(role0, p) == Some(root) ==> !(t <= Rank(role0, p) < u)
    ensures Freeing(mem0, role0, mem, role, root, u)
  {
    assert FreedRole(role0, root, u) == FreedRole(role0, root, t);
  }

  lemma FreeingStep(mem0: Mem, role0: Roles, kroot: nat, mem: Mem, role: Roles, mem': Mem, root: nat, t: nat, p: nat)
    requires TreeOk(mem0, role0, kroot) && root in role0 && role0[root].Root? && root != kroot
    requires Freeing(mem0, role0, mem, role, root, t)
    requires p in role0 && Owner(role0, p) == Some(root) && Rank(role0, p) == t
    requires forall q :: q in mem && q != p ==> q in mem' && mem'[q] == mem[q]
    ensures p in role && role[p].Loose? && Freeing(mem0, role0, mem', role[p := Role.Free], root, t + 1)
  {
    forall q | q in role0 && Owner(role0, q) == Some(root) && Rank(role0, q) == t ensures q == p {
      RankUnique(mem0, role0, kroot, root, p, q);
    }
    assert role[p := Role.Free] == FreedRole(role0, root, t + 1);
  }

  /** A page of the space hangs off a valid word of each table above it. */
  lemma RankPath(mem: Mem, role: Roles, kroot: nat, root: nat, p: nat)
    requires TreeOk(mem, role, kroot) && root in role && role[root].Root? && root != kroot
    requires p in role && Owner(role, p) == Some(root) && p != root
    ensures
      var e2 := Rd(mem, root, USER_SLOT);
      && IsValid(e2)
      && match role[p]
         case Mid(_, _) => p == Ppn(e2)
         case Low(m, a) => m == Ppn(e2) && a < WORDS && Rd(mem, m, a) == Ptr(p)
         case Frame(l, b) =>
           && l in role && role[l].Low? && role[l].at < WORDS && Rd(mem, Ppn(e2), role[l].at) == Ptr(l)
           && b < WORDS && IsValid(Rd(mem, l, b))
         case _ => false
  {
    hide LeafPte, HasU, IsPerm, PermOf;
    PtrFields(p);
    assert UpOk(mem, role, kroot, p);
    if role[p].Frame? {
      var l := role[p].low;
      assert UpOk(mem, role, kroot, l);
      assert UpOk(mem, role, kroot, role[l].mid);
      PtrFields(role[l].mid);
    } else if role[p].Low? {
      assert UpOk(mem, role, kroot, role[p].mid);
      PtrFields(role[p].mid);
    }
  }

  /** Where a word is invalid, the space has no page to free. */
  lemma NothingAt(mem: Mem, role: Roles, kroot: nat, root: nat, i: nat, j: nat, p: nat)
    requires TreeOk(mem, role, kroot) && root in role && role[root].Root? && root != kroot && i < WORDS && j < WORDS
    requires p in role && Owner(role, p) == Some(root)
    ensures
      var e2 := Rd(mem, root, USER_SLOT);
      if !IsValid(e2) then p == root else
      var e1 := Rd(mem, Ppn(e2), i);
      if !IsValid(e1) then !(i * 513 <= Rank(role, p) < (i + 1) * 513) else
      !IsValid(Rd(mem, Ppn(e1), j)) ==> Rank(role, p) != i * 513 + j
  {
    hide IsValid, Ppn, TreeOk;
    if p != root {
      RankPath(mem, role, kroot, root, p);
      PtrFields(p);
      if role[p].Frame? {
        PtrFields(role[p].low);
      }
    }
  }

  /** The tables of a space, as the loops find them. */
  lemma SpacePath(mem: Mem, role: Roles, kroot: nat, root: nat, i: nat, j: nat)
    requires TreeOk(mem, role, kroot) && root in role && role[root].Root? && root != kroot && i < WORDS && j < WORDS
    ensures
      var e2 := Rd(mem, root, USER_SLOT);
      IsValid(e2) ==>
        && Ppn(e2) in role && role[Ppn(e2)] == Mid(root, USER_SLOT) && Owner(role, Ppn(e2)) == Some(root)
        && Rank(role, Ppn(e2)) == 512 * 513
        && var e1 := Rd(mem, Ppn(e2), i);
           IsValid(e1) ==>
             && Ppn(e1) in role && role[Ppn(e1)] == Low(Ppn(e2), i) && Owner(role, Ppn(e1)) == Some(root)
             && Rank(role, Ppn(e1)) == i * 513 + 512
             && var e0 := Rd(mem, Ppn(e1), j);
                IsValid(e0) ==>
                  && Ppn(e0) in role && role[Ppn(e0)] == Frame(Ppn(e1), j) && Owner(role, Ppn(e0)) == Some(root)
                  && Rank(role, Ppn(e0)) == i * 513 + j
  {
    hide IsValid, Ppn, Ptr, LeafPte, HasU, IsPerm, PermOf;
    assert DownOk(mem, role, kroot, root, USER_SLOT);
    var e2 := Rd(mem, root, USER_SLOT);
    if IsValid(e2) {
      assert DownOk(mem, role, kroot, Ppn(e2), i);
      var e1 := Rd(mem, Ppn(e2), i);
      if IsValid(e1) {
        assert DownOk(mem, role, kroot, Ppn(e1), j);
      }
    }
  }

  /** One `kalloc::free` of the loops. */
  method Release(k: PhysMem, ghost mem0: Mem, ghost role0: Roles, ghost root: nat, ghost t: nat, p: nat)
    requires k.Booted() && TreeOk(mem0, role0, k.kernelRoot)
    requires root in role0 && role0[root].Root? && root != k.kernelRoot
    requires Freeing(mem0, role0, k.mem, k.role, root, t)
    requires p in role0 && Owner(role0, p) == Some(root) && Rank(role0, p) == t
    modifies k
    ensures k.Booted() && k.kernelRoot == old(k.kernelRoot)
    ensures Freeing(mem0, role0, k.mem, k.role, root, t + 1)
  {
    hide TreeOk, FreeOk, SameMaps, Freeing, Rank, Owner;
    FreeingStep(mem0, role0, k.kernelRoot, k.mem, k.role, k.mem[p := Poisoned(NextAddr(k.free, 0))], root, t, p);
    k.Free(p);
  }

  /** free_user_table: every page of the space goes back to the free list and nothing else changes; the table must not
      be the active one. */
  method FreeUserTable(k: PhysMem, root: nat, ghost active: nat)
    requires k.Booted() && k.IsRoot(root) && root != k.kernelRoot && root != active
    modifies k
    ensures k.Booted() && k.kernelRoot == old(k.kernelRoot)
    ensures k.role == Reaped(old(k.role), root)
    ensures k.freePages == old(k.freePages) + |Owned(old(k.role), root)|
    ensures forall p :: p in old(k.role) && !old(k.role)[p].Free? && Owner(old(k.role), p) != Some(root) ==>
                          p in k.mem && p in old(k.mem) && k.mem[p] == old(k.mem)[p]
    ensures SameMaps(old(k.mem), k.mem, k.role)
  {
    hide TreeOk, FreeOk, Freeing, Rank, Owner;
    ghost var mem0, role0, kroot := k.mem, k.role, k.kernelRoot;
    DropTree(mem0, role0, kroot, root);
    DropFree(mem0, role0, root, k.free, k.head, k.freePages);
    FreeingStart(mem0, role0, kroot, root);
    k.role := FreedRole(k.role, root, 0);

    RootRank(role0, root);
    SpaceWords(mem0, role0, kroot, k.mem, k.role, root, 0, root);
    var e2 := k.mem[root][USER_SLOT];
    SpacePath(mem0, role0, kroot, root, 0, 0);
    if IsValid(e2) {
      var l1 := Ppn(e2);
      var i := 0;
      while i < WORDS
        invariant 0 <= i <= WORDS && k.Booted() && k.kernelRoot == kroot
        invariant Freeing(mem0, role0, k.mem, k.role, root, i * 513)
      {
        SpaceWords(mem0, role0, kroot, k.mem, k.role, root, i * 513, l1);
        var e1 := k.mem[l1][i];
        SpacePath(mem0, role0, kroot, root, i, 0);
        if IsValid(e1) {
          var l0 := Ppn(e1);
          var j := 0;
          while j < WORDS
            invariant 0 <= j <= WORDS && k.Booted() && k.kernelRoot == kroot
            invariant Freeing(mem0, role0, k.mem, k.role, root, i * 513 + j)
          {
            SpaceWords(mem0, role0, kroot, k.mem, k.role, root, i * 513 + j, l0);
            var e0 := k.mem[l0][j];
            SpacePath(mem0, role0, kroot, root, i, j);
            if IsValid(e0) {
              Release(k, mem0, role0, root, i * 513 + j, Ppn(e0));
            } else {
              Skip(mem0, role0, kroot, k.mem, k.role, root, i, j);
            }
            j := j + 1;
          }
          Release(k, mem0, role0, root, i * 513 + 512, l0);
        } else {
          Skip(mem0, role0, kroot, k.mem, k.role, root, i, 0);
        }
        i := i + 1;
      }
      Release(k, mem0, role0, root, 512 * 513, l1);
    } else {
      Skip(mem0, role0, kroot, k.mem, k.role, root, 0, 0);
    }
    Release(k, mem0, role0, root, 512 * 513 + 1, root);
    AllReaped(mem0, role0, kroot, k.mem, k.role, root);
    ReapCount(mem0, role0, old(k.free), old(k.head), old(k.freePages), k.mem, k.role, k.free, k.head, k.freePages,
              root);
  }

  lemma FreeingStart(mem: Mem, role: Roles, kroot: nat, root: nat)
    requires TreeOk(mem, role, kroot)
    ensures Freeing(mem, role, mem, FreedRole(role, root, 0), root, 0)
  {
  }

  lemma RootRank(role: Roles, root: nat)
    requires root in role && role[root].Root?
    ensures Owner(role, root) == Some(root) && Rank(role, root) == 512 * 513 + 1
  {
  }

  /** A page of the space that is not yet freed still holds its original words. */
  lemma SpaceWords(mem0: Mem, role0: Roles, kroot: nat, mem: Mem, role: Roles, root: nat, t: nat, p: nat)
    requires TreeOk(mem0, role0, kroot) && Freeing(mem0, role0, mem, role, root, t)
    requires p in role0 && Owner(role0, p) == Some(root) && t <= Rank(role0, p)
    ensures p in mem && |mem[p]| == WORDS && p in mem0 && mem[p] == mem0[p]
  {
  }

  lemma Skip(mem0: Mem, role0: Roles, kroot: nat, mem: Mem, role: Roles, root: nat, i: nat, j: nat)
    requires TreeOk(mem0, role0, kroot) && root in role0 && role0[root].Root? && root != kroot && i < WORDS && j < WORDS
    ensures
      var e2 := Rd(mem0, root, USER_SLOT);
      if !IsValid(e2) then
        Freeing(mem0, role0, mem, role, root, 0) ==> Freeing(mem0, role0, mem, role, root, 512 * 513 + 1)
      else
      var e1 := Rd(mem0, Ppn(e2), i);
      if !IsValid(e1) then
        Freeing(mem0, role0, mem, role, root, i * 513) ==> Freeing(mem0, role0, mem, role, root, (i + 1) * 513)
      else
        !IsValid(Rd(mem0, Ppn(e1), j)) && Freeing(mem0, role0, mem, role, root, i * 513 + j) ==>
            Freeing(mem0, role0, mem, role, root, i * 513 + j + 1)
  {
    forall p | p in role0 && Owner(role0, p) == Some(root)
      ensures
        var e2 := Rd(mem0, root, USER_SLOT);
        if !IsValid(e2) then Rank(role0, p) == 512 * 513 + 1 else
        var e1 := Rd(mem0, Ppn(e2), i);
        if !IsValid(e1) then !(i * 513 <= Rank(role0, p) < (i + 1) * 513) else
        !IsValid(Rd(mem0, Ppn(e1), j)) ==> Rank(role0, p) != i * 513 + j
    {
      NothingAt(mem0, role0, kroot, root, i, j, p);
    }
    hide Freeing, TreeOk, Rank, Owner;
    var e2 := Rd(mem0, root, USER_SLOT);
    if !IsValid(e2) {
      if Freeing(mem0, role0, mem, role, root, 0) {
        FreeingSkip(mem0, role0, mem, role, root, 0, 512 * 513 + 1);
      }
    } else if !IsValid(Rd(mem0, Ppn(e2), i)) {
      if Freeing(mem0, role0, mem, role, root, i * 513) {
        FreeingSkip(mem0, role0, mem, role, root, i * 513, (i + 1) * 513);
      }
    } else if !IsValid(Rd(mem0, Ppn(Rd(mem0, Ppn(e2), i)), j)) {
      if Freeing(mem0, role0, mem, role, root, i * 513 + j) {
        FreeingSkip(mem0, role0, mem, role, root, i * 513 + j, i * 513 + j + 1);
      }
    }
  }

  /** Roles after a space is reaped: everything it owned is free, nothing else changed. */
  function Reaped(role: Roles, root: nat): Roles
  {
    map p | p in role :: if Owner(role, p) == Some(root) then Role.Free else role[p]
  }

  lemma AllReaped(mem0: Mem, role0: Roles, kroot: nat, mem: Mem, role: Roles, root: nat)
    requires TreeOk(mem0, role0, kroot) && root in role0 && role0[root].Root? && root != kroot
    requires Freeing(mem0, role0, mem, role, root, LAST_RANK)
    ensures role == Reaped(role0, root)
    ensures forall p :: p in role0 && !role0[p].Free? && Owner(role0, p) != Some(root) ==>
                          p in mem && p in mem0 && mem[p] == mem0[p]
    ensures SameMaps(mem0, mem, role)
  {
    forall p | p in role0 && Owner(role0, p) == Some(root) ensures Rank(role0, p) < LAST_RANK {
      if p != root {
        RankPath(mem0, role0, kroot, root, p);
      }
    }
    forall r, v: nat | r in role && role[r].Root? && v < VP_END ensures Lookup(mem, r, v) == Lookup(mem0, r, v) {
      LookupFrame(mem0, role0, kroot, mem, r, v);
    }
  }

  /** A translation depends only on the tables of the space and of the kernel. */
  lemma LookupFrame(mem0: Mem, role: Roles, kroot: nat, mem: Mem, r: nat, v: nat)
    requires TreeOk(mem0, role, kroot) && r in role && role[r].Root? && v < VP_END
    requires forall p :: p in role && role[p].Table?() && Owner(role, p) in {Some(r), Some(kroot)} ==>
                           p in mem && mem[p] == mem0[p]
    ensures Lookup(mem, r, v) == Lookup(mem0, r, v)
  {
    hide IsValid, Ppn, Ptr, LeafPte, HasU, IsPerm, PermOf;
    assert DownOk(mem0, role, kroot, r, V2(v));
    assert DownOk(mem0, role, kroot, kroot, V2(v));
    if LowOf(mem0, r, v).Some? {
      LowOfRole(mem0, role, kroot, r, v);
    }
  }

  function FreeSet(role: Roles): set<nat>
  {
    set p | p in role && role[p].Free?
  }

  /** The counter counts the free pages. */
  lemma FreeCount(mem: Mem, role: Roles, free: seq<nat>, head: nat, n: nat)
    requires FreeOk(mem, role, free, head, n)
    ensures n == |FreeSet(role)|
  {
    SeqSet(free);
    assert Elems(free) == FreeSet(role);
  }

  lemma {:induction false} SeqSet(s: seq<nat>)
    requires forall j, k :: 0 <= j < k < |s| ==> s[j] != s[k]
    ensures |Elems(s)| == |s|
  {
    if s == [] {
      assert Elems(s) == {};
    } else {
      SeqSet(s[1..]);
      assert Elems(s) == Elems(s[1..]) + {s[0]};
    }
  }

  function Elems(s: seq<nat>): set<nat>
  {
    set p | p in s
  }

  lemma ReapCount(mem0: Mem, role0: Roles, free0: seq<nat>, head0: nat, n0: nat,
                  mem: Mem, role: Roles, free: seq<nat>, head: nat, n: nat, root: nat)
    requires FreeOk(mem0, role0, free0, head0, n0) && FreeOk(mem, role, free, head, n)
    requires role == Reaped(role0, root)
    ensures n == n0 + |Owned(role0, root)|
  {
    FreeCount(mem0, role0, free0, head0, n0);
    FreeCount(mem, role, free, head, n);
    assert FreeSet(role) == FreeSet(role0) + Owned(role0, root);
    assert FreeSet(role0) !! Owned(role0, root);
  }

  // --- building a new space next to the existing ones ---

  /** `c` is a new root; it and its pages came off the free list and nothing else changed. */
  ghost predicate Built(mem0: Mem, role0: Roles, mem: Mem, role: Roles, c: nat)
  {
    && role.Keys == role0.Keys && c in role0 && role0[c].Free? && role[c].Root?
    && (forall p :: p in role0 && !role0[p].Free? ==>
          role[p] == role0[p] && Owner(role, p) == Owner(role0, p) && p in mem && p in mem0 && mem[p] == mem0[p])
    && (forall p :: p in role0 && role0[p].Free? && !role[p].Free? ==> Owner(role, p) == Some(c))
  }

  /** The owner of a page is a root. */
  lemma OwnerIsRoot(mem: Mem, role: Roles, kroot: nat, p: nat)
    requires TreeOk(mem, role, kroot) && Owner(role, p).Some?
    ensures Owner(role, p).value in role && role[Owner(role, p).value].Root?
  {
    hide IsValid, Ppn, Ptr, LeafPte, HasU, IsPerm, PermOf;
    assert UpOk(mem, role, kroot, p);
    if role[p].Frame? {
      assert UpOk(mem, role, kroot, role[p].low);
      assert UpOk(mem, role, kroot, role[role[p].low].mid);
    } else if role[p].Low? {
      assert UpOk(mem, role, kroot, role[p].mid);
    }
  }

  lemma BuiltNew(mem: Mem, role: Roles, kroot: nat, c: nat, page: seq<nat>)
    requires TreeOk(mem, role, kroot) && c in role && role[c].Free?
    ensures Built(mem, role, mem[c := page], role[c := Root], c)
  {
    hide IsValid, Ppn, Ptr, LeafPte, HasU, IsPerm, PermOf;
    forall p | p in role && !role[p].Free? ensures Owner(role[c := Root], p) == Owner(role, p) {
      assert UpOk(mem, role, kroot, p);
      if role[p].Frame? {
        assert UpOk(mem, role, kroot, role[p].low);
      }
    }
  }

  lemma BuiltGrew(m0: Mem, r0: Roles, kroot: nat, m1: Mem, r1: Roles, m2: Mem, r2: Roles, c: nat)
    requires TreeOk(m0, r0, kroot)
    requires Built(m0, r0, m1, r1, c) && Grew(m1, r1, m2, r2, c, {})
    ensures Built(m0, r0, m2, r2, c)
  {
    forall p | p in r0 && !r0[p].Free? ensures Owner(r0, p) != Some(c) {
      if Owner(r0, p).Some? {
        OwnerIsRoot(m0, r0, kroot, p);
      }
    }
    hide TreeOk, Owner;
  }
}
