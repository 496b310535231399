/**
 spawn_user one step at a time (src/proc.rs:199-245, src/vm.rs:62-108, src/vm.rs:234-249).  The shell calls it with
 interrupts on, so any step of any other thread can come between two of these; `Valid` holds at every boundary,
 and the image arrives whole all the same.
 */
module Spawning {
  import opened Options
  import opened Bytes
  import opened PageTables
  import opened Phys
  import opened UserTables
  import opened AddressSpaces
  import opened Builds
  import opened Processes
  import opened ThreadStates

  // --- what every step keeps ---

  /** The same pages are roots. */
  lemma SpacesSame(role0: Roles, role: Roles, kroot: nat, procs: Table, building: set<nat>)
    requires SpacesOk(role0, kroot, procs, building) && role.Keys == role0.Keys
    requires forall p :: p in role0 ==> (role[p].Root? <==> role0[p].Root?)
    ensures SpacesOk(role, kroot, procs, building)
  {
    forall i | 0 <= i < |procs| && procs[i].Some? ensures ProcOk(role, kroot, procs[i].value) {
      assert ProcOk(role0, kroot, procs[i].value);
    }
  }

  /** A page in hand becomes a root under construction. */
  lemma SpacesRoot(role: Roles, kroot: nat, procs: Table, building: set<nat>, p: nat)
    requires SpacesOk(role, kroot, procs, building) && p in role && role[p].Loose? && p != kroot
    ensures SpacesOk(role[p := Root], kroot, procs, building + {p})
  {
    var role' := role[p := Root];
    forall i | 0 <= i < |procs| && procs[i].Some? ensures ProcOk(role', kroot, procs[i].value) && !Uses(procs[i], p) {
      assert ProcOk(role, kroot, procs[i].value);
    }
  }

  lemma RootsStep(builds: Builds, id: nat, b: Build)
    requires id in builds && (builds[id].Growing? ==> b.Growing? && b.root == builds[id].root)
    ensures Roots(builds[id := b]) == Roots(builds) + (if b.Growing? then {b.root} else {})
  {
    var builds' := builds[id := b];
    forall j | j in builds && builds[j].Growing? ensures builds[j].root in Roots(builds') {
      assert builds'[j].Growing? && builds'[j].root == builds[j].root;
    }
    assert b.Growing? ==> builds'[id].root in Roots(builds');
  }

  /** No process notices a build's step. */
  lemma ViewsBeside(mem0: Mem, role0: Roles, mem: Mem, role: Roles, kroot: nat, r: nat, ps: set<nat>, procs: Table,
                    building: set<nat>)
    requires TreeOk(mem0, role0, kroot) && Beside(mem0, role0, mem, role, r, ps)
    requires SpacesOk(role0, kroot, procs, building) && HeapsOk(mem0, procs) && !SomeUses(procs, r)
    requires forall p :: p in ps ==> p in role0 && (role0[p].Loose? || role0[p].Free?)
    ensures HeapsOk(mem, procs)
    ensures forall j :: 0 <= j < |procs| && procs[j].Some? && procs[j].value.userTable.Some? ==>
              View(mem, procs[j].value.pageTable) == View(mem0, procs[j].value.pageTable)
  {
    forall j | 0 <= j < |procs| && procs[j].Some? && procs[j].value.userTable.Some?
      ensures View(mem, procs[j].value.pageTable) == View(mem0, procs[j].value.pageTable)
    {
      assert ProcOk(role0, kroot, procs[j].value);
      assert Uses(procs[j], procs[j].value.pageTable);
      BesideView(mem0, role0, mem, role, kroot, r, ps, procs[j].value.pageTable);
    }
    hide View, TreeOk, Beside, HeapOk;
  }

  /** A page that is no root, or is a build's, is no process's table. */
  lemma Unused(role: Roles, kroot: nat, procs: Table, building: set<nat>, r: nat)
    requires SpacesOk(role, kroot, procs, building) && r in role && (!role[r].Root? || r in building)
    ensures !SomeUses(procs, r)
  {
    forall i | 0 <= i < |procs| ensures !Uses(procs[i], r) {
      assert procs[i].Some? ==> ProcOk(role, kroot, procs[i].value);
    }
  }

  /** Only this build's root is this root. */
  lemma OnlyBuild(mem: Mem, role: Roles, kroot: nat, builds: Builds, id: nat, r: nat)
    requires BuildsOk(mem, role, kroot, builds) && id in builds && r in role
    requires !role[r].Root? || HasRoot(builds[id], r)
    ensures forall j :: j in builds && j != id ==> !HasRoot(builds[j], r)
  {
    forall j | j in builds && j != id ensures !HasRoot(builds[j], r) {
      assert BuildOk(mem, role, kroot, builds[j]);
    }
  }

  lemma BuildAt(mem: Mem, role: Roles, kroot: nat, builds: Builds, id: nat)
    requires BuildsOk(mem, role, kroot, builds) && id in builds
    ensures BuildOk(mem, role, kroot, builds[id]) && (builds[id].Growing? ==> builds[id].root in Roots(builds))
  {
  }

  // --- taking a page ---

  lemma TakeBeside(mem: Mem, role: Roles, kroot: nat, q: nat)
    requires TreeOk(mem, role, kroot) && q in role && role[q].Free?
    ensures Beside(mem, role, mem, role[q := Loose], q, {}) && q in mem
  {
    forall p | p in role && !role[p].Free? ensures Owner(role[q := Loose], p) == Owner(role, p) && p in mem {
      AllocOwner(mem, role, kroot, q, p);
    }
    assert q in mem;
    hide TreeOk, Owner;
  }

  /** The stages that allocate, and what they hold next. */
  function WithPage(b: Build, q: nat): Build
  {
    match b
    case Starting(image) => Rooting(image, q, false)
    case Growing(image, r, i, NeedPage) => Growing(image, r, i, HavePage(q, false))
    case Growing(image, r, i, Filled(p)) => Growing(image, r, i, HaveTable(p, q, false))
    case _ => b
  }

  predicate Takes(mem: Mem, b: Build)
  {
    match b
    case Starting(_) => true
    case Growing(image, _, i, NeedPage) => i <= ImagePages(image)
    case Growing(image, r, i, Filled(_)) => LowOf(mem, r, TargetAt(image, i)).None?
    case _ => false
  }

  lemma TakeOk(mem: Mem, role: Roles, kroot: nat, b: Build, q: nat)
    requires TreeOk(mem, role, kroot) && BuildOk(mem, role, kroot, b) && Takes(mem, b) && q in role && role[q].Free?
    ensures BuildOk(mem, role[q := Loose], kroot, WithPage(b, q))
  {
    TakeBeside(mem, role, kroot, q);
    assert !HasRoot(b, q);
    BesideBuild(mem, role, mem, role[q := Loose], kroot, q, {}, b);
    hide TreeOk, View, Beside, LowOf, Loaded;
  }

  lemma TakeMoves(mem: Mem, role: Roles, kroot: nat, builds: Builds, id: nat, q: nat)
    requires BuildsOk(mem, role, kroot, builds) && id in builds && Takes(mem, builds[id]) && q in role && role[q].Free?
    ensures Moves(role, role[q := Loose], q, {}, builds, id, WithPage(builds[id], q))
  {
    hide BuildOk, BuildsOk, Takes, WithPage, Claims;
    OnlyBuild(mem, role, kroot, builds, id, q);
    BuildsRoot(mem, role, kroot, builds, id);
    ClaimsOwn(mem, role, kroot, builds, id);
    TakeClaims(mem, builds[id], q, q);
    forall p ensures Claims(WithPage(builds[id], q), p) <==> p == q || Claims(builds[id], p) {
      TakeClaims(mem, builds[id], q, p);
    }
  }

  lemma ClaimsOwn(mem: Mem, role: Roles, kroot: nat, builds: Builds, id: nat)
    requires BuildsOk(mem, role, kroot, builds) && id in builds
    ensures forall p :: Claims(builds[id], p) ==> p in role && role[p].Loose?
  {
    BuildAt(mem, role, kroot, builds, id);
    hide BuildsOk, BuildOk, Claims;
    forall p | Claims(builds[id], p) ensures p in role && role[p].Loose? {
      ClaimsLoose(mem, role, kroot, builds[id], p);
    }
  }

  lemma TakeClaims(mem: Mem, b: Build, q: nat, p: nat)
    requires Takes(mem, b)
    ensures Claims(WithPage(b, q), p) <==> p == q || Claims(b, p)
    ensures WithPage(b, q).Growing? <==> b.Growing?
    ensures b.Growing? ==> WithPage(b, q).root == b.root
  {
  }

  lemma BuildsRoot(mem: Mem, role: Roles, kroot: nat, builds: Builds, id: nat)
    requires BuildsOk(mem, role, kroot, builds) && id in builds
    ensures builds[id].Growing? ==> forall j :: j in builds && j != id ==> !HasRoot(builds[j], builds[id].root)
  {
    hide BuildOk;
    assert builds[id].Growing? ==> HasRoot(builds[id], builds[id].root);
  }

  // --- the root page gets the kernel's entries ---

  lemma RootBeside(mem: Mem, role: Roles, kroot: nat, p: nat, page: seq<nat>)
    requires TreeOk(mem, role, kroot) && p in role && role[p].Loose?
    ensures Beside(mem, role, mem[p := page], role[p := Root], p, {p})
  {
    hide IsValid, Ppn, Ptr, LeafPte, HasU, IsPerm, PermOf;
    forall q | q in role && !role[q].Free? && q != p ensures Owner(role[p := Root], q) == Owner(role, q) {
      assert UpOk(mem, role, kroot, q);
      if role[q].Frame? {
        assert UpOk(mem, role, kroot, role[q].low);
      }
    }
  }

  lemma RootEmpty(mem: Mem, role: Roles, kroot: nat, p: nat)
    requires TreeOk(mem, role, kroot) && p in role && role[p].Loose?
    ensures kroot in mem && p != kroot && View(mem[p := mem[kroot]], p) == map[]
  {
    hide Lookup, View, InUser;
    NewRoot(mem, role, kroot, p);
    var mem' := mem[p := mem[kroot]];
    forall u: nat ensures u !in View(mem', p) {
      InViewIff(mem', p, u);
      if InUser(u) {
        UserBelow(u);
        KernelSlotEmpty(mem, role, kroot, u);
      }
    }
  }

  lemma UserBelow(u: nat)
    requires InUser(u)
    ensures u < VP_END && V2(u) == USER_SLOT
  {
  }

  lemma KernelSlotEmpty(mem: Mem, role: Roles, kroot: nat, u: nat)
    requires TreeOk(mem, role, kroot) && InUser(u)
    ensures Lookup(mem, kroot, u).None?
  {
    assert DownOk(mem, role, kroot, kroot, V2(u));
  }

  lemma RootOk(mem: Mem, role: Roles, kroot: nat, image: seq<nat>, p: nat)
    requires TreeOk(mem, role, kroot) && BuildOk(mem, role, kroot, Rooting(image, p, true))
    ensures kroot in mem && p != kroot
    ensures BuildOk(mem[p := mem[kroot]], role[p := Root], kroot, Growing(image, p, 0, NeedPage))
  {
    hide TreeOk, View, Loaded;
    RootEmpty(mem, role, kroot, p);
    LoadedNext(image, 0);
  }

  // --- a page gets its contents ---

  lemma FillBeside(mem: Mem, role: Roles, kroot: nat, q: nat, page: seq<nat>)
    requires TreeOk(mem, role, kroot) && q in role && role[q].Loose?
    ensures Beside(mem, role, mem[q := page], role, q, {q})
  {
  }

  lemma FillOk(mem: Mem, role: Roles, kroot: nat, image: seq<nat>, r: nat, i: nat, q: nat)
    requires TreeOk(mem, role, kroot) && BuildOk(mem, role, kroot, Growing(image, r, i, HavePage(q, true)))
    ensures BuildOk(mem[q := ContentAt(image, i)], role, kroot, Growing(image, r, i, Filled(q)))
  {
    FillBeside(mem, role, kroot, q, ContentAt(image, i));
    BesideView(mem, role, mem[q := ContentAt(image, i)], role, kroot, q, {q}, r);
    hide TreeOk, View, Beside, Loaded;
  }

  // --- a table is linked in ---

  /** Where the walk of `r` for `vp` has to link a missing table. */
  function LinkAt(mem: Mem, r: nat, vp: nat): (nat, nat)
  {
    if IsValid(Rd(mem, r, V2(vp))) then (Ppn(Rd(mem, r, V2(vp))), V1(vp)) else (r, V2(vp))
  }

  lemma LinkAtOk(mem: Mem, role: Roles, kroot: nat, r: nat, vp: nat)
    requires TreeOk(mem, role, kroot) && r in role && role[r].Root? && r != kroot && InUser(vp)
    requires LowOf(mem, r, vp).None?
    ensures
      var (t, i) := LinkAt(mem, r, vp);
      && CanLink(mem, role, kroot, t, i) && Owner(role, t) == Some(r) && t in mem && i < |mem[t]|
  {
    Descend(mem, role, kroot, r, vp, 2, r);
    if IsValid(Rd(mem, r, V2(vp))) {
      Descend(mem, role, kroot, r, vp, 1, Ppn(Rd(mem, r, V2(vp))));
    }
    hide IsValid, Ppn, Ptr;
    PageIn(mem, role, kroot, LinkAt(mem, r, vp).0);
  }

  /** Linking a page in hand: nothing is visible, and only the space of `r` is touched. */
  lemma LinkBeside(mem: Mem, role: Roles, kroot: nat, r: nat, t: nat, i: nat, q: nat)
    requires TreeOk(mem, role, kroot) && CanLink(mem, role, kroot, t, i) && Owner(role, t) == Some(r)
    requires Hand(mem, role, q, ZEROS) && t in mem && i < |mem[t]|
    ensures
      var mem', role' := SetWord(mem, t, i, Ptr(q)), role[q := LinkRole(role, t, i)];
      TreeOk(mem', role', kroot) && SameMaps(mem, mem', role) && Beside(mem, role, mem', role', r, {q})
  {
    hide IsValid, Ppn, Ptr, LeafPte, HasU, IsPerm, PermOf;
    LinkKeepsTree(mem, role, kroot, t, i, q);
    var mem', role' := SetWord(mem, t, i, Ptr(q)), role[q := LinkRole(role, t, i)];
    forall c, v: nat | c in role && role[c].Root? && v < VP_END ensures Lookup(mem', c, v) == Lookup(mem, c, v) {
      LinkKeepsLookup(mem, role, kroot, t, i, q, c, v);
    }
    forall p | p in role && !role[p].Free? && p != q ensures Owner(role', p) == Owner(role, p) {
      assert UpOk(mem, role, kroot, p);
      if role[p].Frame? {
        assert UpOk(mem, role, kroot, role[p].low);
      }
    }
  }

  lemma LinkOk(mem: Mem, role: Roles, kroot: nat, image: seq<nat>, r: nat, i: nat, q: nat, t: nat)
    requires TreeOk(mem, role, kroot) && BuildOk(mem, role, kroot, Growing(image, r, i, HaveTable(q, t, true)))
    ensures
      var (table, k) := LinkAt(mem, r, TargetAt(image, i));
      && CanLink(mem, role, kroot, table, k) && table in mem && k < |mem[table]| && Owner(role, table) == Some(r)
      && BuildOk(SetWord(mem, table, k, Ptr(t)), role[t := LinkRole(role, table, k)], kroot,
           Growing(image, r, i, Filled(q)))
  {
    hide View, Beside, Lookup, Loaded, LowOf, Ptr, Ppn, IsValid, Owner, TreeOk, ContentAt, TargetAt, LinkAt;
    LoadedNext(image, i);
    var vp := TargetAt(image, i);
    LinkAtOk(mem, role, kroot, r, vp);
    var (table, k) := LinkAt(mem, r, vp);
    LinkBeside(mem, role, kroot, r, table, k, t);
    var mem' := SetWord(mem, table, k, Ptr(t));
    forall p | p in role && role[p].Frame? && Owner(role, p) == Some(r) ensures p in mem' && mem'[p] == mem[p] {
      PageIn(mem, role, kroot, p);
    }
    ViewFrame(mem, role, kroot, mem', r);
  }

  // --- the leaf is written ---

  lemma LeafStep(mem: Mem, role: Roles, kroot: nat, r: nat, vp: nat, low: nat, q: nat, perm: nat, page: seq<nat>)
    requires TreeOk(mem, role, kroot) && r in role && role[r].Root? && r != kroot && InUser(vp)
    requires LowOf(mem, r, vp) == Some(low) && Lookup(mem, r, vp).None?
    requires Hand(mem, role, q, page) && IsPerm(perm) && HasU(perm)
    ensures low in mem && V0(vp) < |mem[low]|
    ensures
      var mem', role' := SetWord(mem, low, V0(vp), LeafPte(q, perm)), role[q := Frame(low, V0(vp))];
      && TreeOk(mem', role', kroot) && Mapped(mem, mem', role, r, vp, q, 1, perm)
      && Beside(mem, role, mem', role', r, {q})
      && View(mem', r) == View(mem, r)[vp := Leaf(page, perm)]
  {
    hide IsValid, Ppn, Ptr, LeafPte, HasU, IsPerm, PermOf, V0, V1, Lookup, View;
    LowOfRole(mem, role, kroot, r, vp);
    PageIn(mem, role, kroot, low);
    hide LowOf, TreeOk, Mapped;
    MapStep(mem, role, kroot, r, vp, low, q, perm);
    var mem', role' := SetWord(mem, low, V0(vp), LeafPte(q, perm)), role[q := Frame(low, V0(vp))];
    assert Taken(kroot, r, q, 1) == {q} by {
      assert Between(q, 1, q);
    }
    hide Owner;
    ViewFresh(mem, role, mem', role', kroot, r, vp, q, page, perm, {q});
  }

  lemma PermAtOk(image: seq<nat>, i: nat)
    ensures IsPerm(PermAt(image, i)) && HasU(PermAt(image, i))
  {
  }

  lemma LeafWritten(mem: Mem, role: Roles, kroot: nat, image: seq<nat>, r: nat, i: nat, q: nat)
    requires TreeOk(mem, role, kroot) && BuildOk(mem, role, kroot, Growing(image, r, i, Filled(q)))
    requires LowOf(mem, r, TargetAt(image, i)).Some?
    ensures
      var vp, low := TargetAt(image, i), LowOf(mem, r, TargetAt(image, i)).value;
      && low in mem && V0(vp) < |mem[low]|
      && var mem', role' := SetWord(mem, low, V0(vp), LeafPte(q, PermAt(image, i))), role[q := Frame(low, V0(vp))];
         && TreeOk(mem', role', kroot) && Mapped(mem, mem', role, r, vp, q, 1, PermAt(image, i))
         && Beside(mem, role, mem', role', r, {q})
         && BuildOk(mem', role', kroot, Growing(image, r, i + 1, NeedPage))
  {
    hide TreeOk, Beside, Mapped, LowOf, LeafPte, V0, View, Lookup, Loaded, HasU, IsPerm, ImagePages, ContentAt,
         TargetAt, PermAt, LoadableImage;
    LoadedNext(image, i);
    var vp, low, perm := TargetAt(image, i), LowOf(mem, r, TargetAt(image, i)).value, PermAt(image, i);
    InViewIff(mem, r, vp);
    PermAtOk(image, i);
    LeafStep(mem, role, kroot, r, vp, low, q, perm, ContentAt(image, i));
  }

  // --- the steps ---

  ghost predicate KernelSame(mem0: Mem, mem: Mem, kroot: nat)
  {
    forall v: nat {:trigger Lookup(mem, kroot, v)} :: v < VP_END ==> Lookup(mem, kroot, v) == Lookup(mem0, kroot, v)
  }

  lemma SameMapsKernel(mem0: Mem, role0: Roles, mem: Mem, kroot: nat)
    requires TreeOk(mem0, role0, kroot) && SameMaps(mem0, mem, role0)
    ensures KernelSame(mem0, mem, kroot)
  {
    hide Lookup;
  }

  lemma MappedKernel(mem0: Mem, role0: Roles, mem: Mem, kroot: nat, root: nat, vp: nat, f: nat, perm: nat)
    requires TreeOk(mem0, role0, kroot) && Mapped(mem0, mem, role0, root, vp, f, 1, perm) && root != kroot
    ensures KernelSame(mem0, mem, kroot)
  {
    hide Lookup, LeafPte;
  }

  /** One step of one build: every other build, every process and the kernel map are as they were. */
  lemma StepKeeps(mem0: Mem, role0: Roles, mem: Mem, role: Roles, kroot: nat, r: nat, ps: set<nat>,
                  procs: Table, builds: Builds, id: nat, b: Build, boot: Mem)
    requires TreeOk(mem0, role0, kroot) && Beside(mem0, role0, mem, role, r, ps) && KernelSame(mem0, mem, kroot)
    requires BuildsOk(mem0, role0, kroot, builds) && BuildOk(mem, role, kroot, b)
    requires Moves(role0, role, r, ps, builds, id, b)
    requires SpacesOk(role0, kroot, procs, Roots(builds)) && HeapsOk(mem0, procs) && KernelKept(boot, mem0, kroot)
    requires r in role0 && (!role0[r].Root? || r in Roots(builds))
    ensures BuildsOk(mem, role, kroot, builds[id := b]) && HeapsOk(mem, procs) && KernelKept(boot, mem, kroot)
    ensures forall j :: 0 <= j < |procs| && procs[j].Some? && procs[j].value.userTable.Some? ==>
              View(mem, procs[j].value.pageTable) == View(mem0, procs[j].value.pageTable)
  {
    hide TreeOk, Beside, BuildsOk, BuildOk, SpacesOk, HeapsOk, View, Lookup, Claims, Roots;
    BuildsStep(mem0, role0, mem, role, kroot, r, ps, builds, id, b);
    Unused(role0, kroot, procs, Roots(builds), r);
    ViewsBeside(mem0, role0, mem, role, kroot, r, ps, procs, Roots(builds));
    forall v: nat | v < VP_END ensures Lookup(mem, kroot, v) == Lookup(boot, kroot, v) {
      assert Lookup(mem, kroot, v) == Lookup(mem0, kroot, v);
    }
  }

  /** The caller enters load_user_image. */
  method Begin(pt: ProcTable, id: nat, image: seq<nat>)
    requires pt.Valid() && LoadableImage(image) && id !in pt.builds
    modifies pt`builds
    ensures pt.Valid() && pt.builds == old(pt.builds)[id := Starting(image)]
  {
    BeginOk(pt.phys.mem, pt.phys.role, pt.phys.kernelRoot, pt.builds, id, image);
    hide BuildsOk, Roots, SpacesOk, HeapsOk, KernelKept, PidsOk, RunOk, TreeOk, FreeOk;
    pt.builds := pt.builds[id := Starting(image)];
  }

  lemma BeginOk(mem: Mem, role: Roles, kroot: nat, builds: Builds, id: nat, image: seq<nat>)
    requires BuildsOk(mem, role, kroot, builds) && id !in builds && LoadableImage(image)
    ensures BuildsOk(mem, role, kroot, builds[id := Starting(image)])
    ensures Roots(builds[id := Starting(image)]) == Roots(builds)
  {
    hide View, Loaded, LowOf;
    var builds' := builds[id := Starting(image)];
    forall p | p in role && role[p].Loose? ensures Claimed(builds', p) {
      var j :| j in builds && Claims(builds[j], p);
      assert Claims(builds'[j], p);
    }
    forall r | r in Roots(builds) ensures r in Roots(builds') {
      var j :| j in builds && builds[j].Growing? && builds[j].root == r;
      assert builds'[j].Growing?;
    }
  }

  /** A call of kalloc::alloc takes a page off the list: for the root, for the next page, or for a table the walk
      misses. */
  method Take(pt: ProcTable, id: nat) returns (q: Option<nat>)
    requires pt.Valid() && id in pt.builds && Takes(pt.phys.mem, pt.builds[id])
    modifies pt`builds, pt.phys
    ensures pt.Valid() && (q.None? <==> old(pt.phys.freePages) == 0) && pt.OthersKept(|pt.procs|)
    ensures q.None? ==> unchanged(pt) && unchanged(pt.phys)
    ensures q.Some? ==> pt.builds == old(pt.builds)[id := WithPage(old(pt.builds)[id], q.value)]
    ensures q.Some? ==> pt.phys.freePages == old(pt.phys.freePages) - 1
  {
    hide BuildsOk, BuildOk, Roots, SpacesOk, HeapsOk, KernelKept, PidsOk, RunOk, TreeOk, FreeOk, SameMaps, View, Takes,
         WithPage, Moves, Beside;
    ghost var mem0, role0, kroot, builds0 := pt.phys.mem, pt.phys.role, pt.phys.kernelRoot, pt.builds;
    q := pt.phys.Pop();
    if q.Some? {
      TakeKeeps(mem0, role0, kroot, pt.procs, builds0, id, q.value, pt.boot);
      pt.builds := pt.builds[id := WithPage(pt.builds[id], q.value)];
    }
  }

  lemma TakeKeeps(mem: Mem, role: Roles, kroot: nat, procs: Table, builds: Builds, id: nat, q: nat, boot: Mem)
    requires TreeOk(mem, role, kroot) && BuildsOk(mem, role, kroot, builds) && id in builds && Takes(mem, builds[id])
    requires SpacesOk(role, kroot, procs, Roots(builds)) && HeapsOk(mem, procs) && KernelKept(boot, mem, kroot)
    requires q in role && role[q].Free?
    ensures
      var role', builds' := role[q := Loose], builds[id := WithPage(builds[id], q)];
      BuildsOk(mem, role', kroot, builds') && SpacesOk(role', kroot, procs, Roots(builds'))
  {
    var role', b := role[q := Loose], WithPage(builds[id], q);
    assert BuildOk(mem, role, kroot, builds[id]);
    SameMapsSelf(mem, role);
    SameMapsKernel(mem, role, mem, kroot);
    RootsStep(builds, id, b);
    assert builds[id].Growing? ==> builds[id].root in Roots(builds);
    assert Roots(builds[id := b]) == Roots(builds);
    hide BuildsOk, BuildOk, Roots, HeapsOk, KernelKept, TreeOk, SameMaps, View, Takes, WithPage, Moves, Beside;
    SpacesSame(role, role', kroot, procs, Roots(builds));
    TakeBeside(mem, role, kroot, q);
    TakeOk(mem, role, kroot, builds[id], q);
    TakeMoves(mem, role, kroot, builds, id, q);
    hide SpacesOk;
    StepKeeps(mem, role, mem, role', kroot, q, {}, procs, builds, id, b, boot);
  }

  // --- zeroing it ---

  predicate Unclean(b: Build)
  {
    || (b.Rooting? && !b.clean)
    || (b.Growing? && (b.stage.HavePage? || b.stage.HaveTable?) && !b.stage.clean)
  }

  /** The page to be zeroed, and the build once it is. */
  function DirtyPage(b: Build): nat
    requires Unclean(b)
  {
    if b.Rooting? then b.page else if b.stage.HavePage? then b.stage.page else b.stage.table
  }

  function Cleaned(b: Build): Build
    requires Unclean(b)
  {
    if b.Rooting? then b.(clean := true) else b.(stage := b.stage.(clean := true))
  }

  lemma ZeroOk(mem: Mem, role: Roles, kroot: nat, b: Build)
    requires TreeOk(mem, role, kroot) && BuildOk(mem, role, kroot, b) && Unclean(b)
    ensures DirtyPage(b) in role && role[DirtyPage(b)].Loose?
    ensures BuildOk(mem[DirtyPage(b) := ZEROS], role, kroot, Cleaned(b))
  {
    hide TreeOk, View, Beside, Loaded, LowOf, Lookup, ContentAt, TargetAt, LoadableImage, ImagePages, Ppn;
    var q := DirtyPage(b);
    FillBeside(mem, role, kroot, q, ZEROS);
    if b.Growing? {
      BesideView(mem, role, mem[q := ZEROS], role, kroot, q, {q}, b.root);
      if b.stage.HaveTable? {
        LoadedNext(b.image, b.i);
        BesideLow(mem, role, mem[q := ZEROS], role, kroot, q, {q}, b.root, TargetAt(b.image, b.i));
      }
    }
  }

  lemma ZeroMoves(mem: Mem, role: Roles, kroot: nat, builds: Builds, id: nat)
    requires BuildsOk(mem, role, kroot, builds) && id in builds && Unclean(builds[id])
    ensures Moves(role, role, DirtyPage(builds[id]), {DirtyPage(builds[id])}, builds, id, Cleaned(builds[id]))
  {
    hide BuildOk, BuildsOk, Unclean, DirtyPage, Cleaned, Claims;
    ClaimsOwn(mem, role, kroot, builds, id);
    CleanClaims(builds[id], DirtyPage(builds[id]));
    OnlyBuild(mem, role, kroot, builds, id, DirtyPage(builds[id]));
    BuildsRoot(mem, role, kroot, builds, id);
    forall p ensures Claims(Cleaned(builds[id]), p) <==> Claims(builds[id], p) {
      CleanClaims(builds[id], p);
    }
  }

  lemma CleanClaims(b: Build, p: nat)
    requires Unclean(b)
    ensures (Claims(Cleaned(b), p) <==> Claims(b, p)) && Claims(b, DirtyPage(b))
    ensures (Cleaned(b).Growing? <==> b.Growing?) && (b.Growing? ==> Cleaned(b).root == b.root)
  {
  }

  lemma ZeroKeeps(mem: Mem, role: Roles, kroot: nat, procs: Table, builds: Builds, id: nat, boot: Mem)
    requires TreeOk(mem, role, kroot) && BuildsOk(mem, role, kroot, builds) && id in builds && Unclean(builds[id])
    requires SpacesOk(role, kroot, procs, Roots(builds)) && HeapsOk(mem, procs) && KernelKept(boot, mem, kroot)
    ensures DirtyPage(builds[id]) in role && role[DirtyPage(builds[id])].Loose?
    ensures
      var mem', builds' := mem[DirtyPage(builds[id]) := ZEROS], builds[id := Cleaned(builds[id])];
      && TreeOk(mem', role, kroot)
      && BuildsOk(mem', role, kroot, builds') && SpacesOk(role, kroot, procs, Roots(builds')) && HeapsOk(mem', procs)
      && KernelKept(boot, mem', kroot)
      && forall j :: 0 <= j < |procs| && procs[j].Some? && procs[j].value.userTable.Some? ==>
           View(mem', procs[j].value.pageTable) == View(mem, procs[j].value.pageTable)
  {
    var q, b := DirtyPage(builds[id]), Cleaned(builds[id]);
    var mem' := mem[q := ZEROS];
    assert BuildOk(mem, role, kroot, builds[id]);
    ZeroOk(mem, role, kroot, builds[id]);
    DataWriteSame(mem, role, kroot, q, ZEROS);
    SameMapsKernel(mem, role, mem', kroot);
    FillBeside(mem, role, kroot, q, ZEROS);
    RootsStep(builds, id, b);
    assert builds[id].Growing? ==> builds[id].root in Roots(builds);
    assert Roots(builds[id := b]) == Roots(builds);
    ZeroMoves(mem, role, kroot, builds, id);
    hide BuildsOk, BuildOk, Roots, HeapsOk, KernelKept, TreeOk, SameMaps, View, Moves, Beside, SpacesOk, Cleaned;
    StepKeeps(mem, role, mem', role, kroot, q, {q}, procs, builds, id, b, boot);
  }

  /** The rest of kalloc::alloc, outside its lock: the page is zeroed. */
  method Zero(pt: ProcTable, id: nat)
    requires pt.Valid() && id in pt.builds && Unclean(pt.builds[id])
    modifies pt`builds, pt.phys
    ensures pt.Valid() && pt.OthersKept(|pt.procs|) && pt.phys.freePages == old(pt.phys.freePages)
    ensures pt.builds == old(pt.builds)[id := Cleaned(old(pt.builds)[id])]
  {
    hide BuildsOk, BuildOk, Roots, SpacesOk, HeapsOk, KernelKept, PidsOk, RunOk, TreeOk, FreeOk, View, Cleaned,
         DirtyPage;
    ZeroKeeps(pt.phys.mem, pt.phys.role, pt.phys.kernelRoot, pt.procs, pt.builds, id, pt.boot);
    var q := DirtyPage(pt.builds[id]);
    NonFreeWrite(pt.phys.mem, pt.phys.role, pt.phys.free, pt.phys.head, pt.phys.freePages, q, ZEROS);
    pt.phys.mem := pt.phys.mem[q := ZEROS];
    pt.builds := pt.builds[id := Cleaned(pt.builds[id])];
  }

  lemma RootKeeps(mem: Mem, role: Roles, kroot: nat, procs: Table, builds: Builds, id: nat, boot: Mem)
    requires TreeOk(mem, role, kroot) && BuildsOk(mem, role, kroot, builds) && id in builds
    requires builds[id].Rooting? && builds[id].clean
    requires SpacesOk(role, kroot, procs, Roots(builds)) && HeapsOk(mem, procs) && KernelKept(boot, mem, kroot)
    ensures kroot in mem && builds[id].page in role && role[builds[id].page].Loose?
    ensures
      var image, p := builds[id].image, builds[id].page;
      var mem', role', builds' := mem[p := mem[kroot]], role[p := Root], builds[id := Growing(image, p, 0, NeedPage)];
      && TreeOk(mem', role', kroot)
      && BuildsOk(mem', role', kroot, builds') && SpacesOk(role', kroot, procs, Roots(builds')) && HeapsOk(mem', procs)
      && KernelKept(boot, mem', kroot)
      && forall j :: 0 <= j < |procs| && procs[j].Some? && procs[j].value.userTable.Some? ==>
           View(mem', procs[j].value.pageTable) == View(mem, procs[j].value.pageTable)
  {
    var image, p := builds[id].image, builds[id].page;
    var mem', role', b := mem[p := mem[kroot]], role[p := Root], Growing(image, p, 0, NeedPage);
    assert BuildOk(mem, role, kroot, builds[id]);
    RootOk(mem, role, kroot, image, p);
    NewRoot(mem, role, kroot, p);
    SameMapsKernel(mem, role, mem', kroot);
    RootBeside(mem, role, kroot, p, mem[kroot]);
    RootsStep(builds, id, b);
    OnlyBuild(mem, role, kroot, builds, id, p);
    RootMoves(mem, role, kroot, builds, id);
    hide BuildsOk, BuildOk, Roots, HeapsOk, KernelKept, TreeOk, SameMaps, View, Moves, Beside;
    SpacesRoot(role, kroot, procs, Roots(builds), p);
    hide SpacesOk;
    StepKeeps(mem, role, mem', role', kroot, p, {p}, procs, builds, id, b, boot);
  }

  lemma RootMoves(mem: Mem, role: Roles, kroot: nat, builds: Builds, id: nat)
    requires BuildsOk(mem, role, kroot, builds) && id in builds && builds[id].Rooting? && builds[id].clean
    ensures
      var p := builds[id].page;
      Moves(role, role[p := Root], p, {p}, builds, id, Growing(builds[id].image, p, 0, NeedPage))
  {
    assert BuildOk(mem, role, kroot, builds[id]);
    OnlyBuild(mem, role, kroot, builds, id, builds[id].page);
    hide BuildOk, BuildsOk;
  }

  lemma FillKeeps(mem: Mem, role: Roles, kroot: nat, procs: Table, builds: Builds, id: nat, boot: Mem)
    requires TreeOk(mem, role, kroot) && BuildsOk(mem, role, kroot, builds) && id in builds && builds[id].Growing?
    requires builds[id].stage.HavePage? && builds[id].stage.clean
    requires SpacesOk(role, kroot, procs, Roots(builds)) && HeapsOk(mem, procs) && KernelKept(boot, mem, kroot)
    ensures builds[id].stage.page in role && role[builds[id].stage.page].Loose?
    ensures
      var image, r, i, q := builds[id].image, builds[id].root, builds[id].i, builds[id].stage.page;
      var mem', role', builds' := mem[q := ContentAt(image, i)], role, builds[id := Growing(image, r, i, Filled(q))];
      && TreeOk(mem', role', kroot)
      && BuildsOk(mem', role', kroot, builds') && SpacesOk(role', kroot, procs, Roots(builds')) && HeapsOk(mem', procs)
      && KernelKept(boot, mem', kroot)
      && forall j :: 0 <= j < |procs| && procs[j].Some? && procs[j].value.userTable.Some? ==>
           View(mem', procs[j].value.pageTable) == View(mem, procs[j].value.pageTable)
  {
    var image, r, i, q := builds[id].image, builds[id].root, builds[id].i, builds[id].stage.page;
    var mem', b := mem[q := ContentAt(image, i)], Growing(image, r, i, Filled(q));
    assert BuildOk(mem, role, kroot, builds[id]);
    FillOk(mem, role, kroot, image, r, i, q);
    DataWriteSame(mem, role, kroot, q, ContentAt(image, i));
    SameMapsKernel(mem, role, mem', kroot);
    FillBeside(mem, role, kroot, q, ContentAt(image, i));
    RootsStep(builds, id, b);
    assert r in Roots(builds) && Roots(builds[id := b]) == Roots(builds);
    FillMoves(mem, role, kroot, builds, id);
    hide BuildsOk, BuildOk, Roots, HeapsOk, KernelKept, TreeOk, SameMaps, View, Moves, Beside, SpacesOk;
    StepKeeps(mem, role, mem', role, kroot, q, {q}, procs, builds, id, b, boot);
  }

  lemma FillMoves(mem: Mem, role: Roles, kroot: nat, builds: Builds, id: nat)
    requires BuildsOk(mem, role, kroot, builds) && id in builds && builds[id].Growing? && builds[id].stage.HavePage?
    requires builds[id].stage.clean
    ensures
      var b, q := builds[id], builds[id].stage.page;
      Moves(role, role, q, {q}, builds, id, Growing(b.image, b.root, b.i, Filled(q)))
  {
    assert BuildOk(mem, role, kroot, builds[id]);
    OnlyBuild(mem, role, kroot, builds, id, builds[id].stage.page);
    OnlyBuild(mem, role, kroot, builds, id, builds[id].root);
    hide BuildOk, BuildsOk;
  }

  lemma LinkKeeps(mem: Mem, role: Roles, kroot: nat, procs: Table, builds: Builds, id: nat, boot: Mem)
    requires TreeOk(mem, role, kroot) && BuildsOk(mem, role, kroot, builds) && id in builds && builds[id].Growing?
    requires builds[id].stage.HaveTable? && builds[id].stage.clean
    requires SpacesOk(role, kroot, procs, Roots(builds)) && HeapsOk(mem, procs) && KernelKept(boot, mem, kroot)
    ensures
      var (table, k) := LinkAt(mem, builds[id].root, TargetAt(builds[id].image, builds[id].i));
      && table in mem && k < |mem[table]| && table in role && !role[table].Free?
      && builds[id].stage.table in role && role[builds[id].stage.table].Loose?
    ensures
      var image, r, i, q, t :=
          builds[id].image, builds[id].root, builds[id].i, builds[id].stage.page, builds[id].stage.table;
      var (table, k) := LinkAt(mem, r, TargetAt(image, i));
      var mem', role' := SetWord(mem, table, k, Ptr(t)), role[t := LinkRole(role, table, k)];
      var builds' := builds[id := Growing(image, r, i, Filled(q))];
      && TreeOk(mem', role', kroot)
      && BuildsOk(mem', role', kroot, builds') && SpacesOk(role', kroot, procs, Roots(builds')) && HeapsOk(mem', procs)
      && KernelKept(boot, mem', kroot)
      && forall j :: 0 <= j < |procs| && procs[j].Some? && procs[j].value.userTable.Some? ==>
           View(mem', procs[j].value.pageTable) == View(mem, procs[j].value.pageTable)
  {
    hide V0, V1, V2, Ptr, IsValid, Ppn, ImagePages, TargetAt, ContentAt, Loaded, View, LowOf;
    var image, r, i, q, t :=
        builds[id].image, builds[id].root, builds[id].i, builds[id].stage.page, builds[id].stage.table;
    assert BuildOk(mem, role, kroot, builds[id]);
    LinkOk(mem, role, kroot, image, r, i, q, t);
    var (table, k) := LinkAt(mem, r, TargetAt(image, i));
    LinkBeside(mem, role, kroot, r, table, k, t);
    var mem', role' := SetWord(mem, table, k, Ptr(t)), role[t := LinkRole(role, table, k)];
    var b := Growing(image, r, i, Filled(q));
    SameMapsKernel(mem, role, mem', kroot);
    RootsStep(builds, id, b);
    assert r in Roots(builds) && Roots(builds[id := b]) == Roots(builds);
    LinkMoves(mem, role, kroot, builds, id, LinkRole(role, table, k));
    hide BuildsOk, BuildOk, Roots, HeapsOk, KernelKept, TreeOk, SameMaps, View, Moves, Beside, CanLink, SetWord, Hand;
    SpacesSame(role, role', kroot, procs, Roots(builds));
    hide SpacesOk;
    StepKeeps(mem, role, mem', role', kroot, r, {t}, procs, builds, id, b, boot);
  }

  lemma LinkMoves(mem: Mem, role: Roles, kroot: nat, builds: Builds, id: nat, x: Role)
    requires BuildsOk(mem, role, kroot, builds) && id in builds && builds[id].Growing? && builds[id].stage.HaveTable?
    requires builds[id].stage.clean
    requires !x.Loose?
    ensures
      var b := builds[id];
      Moves(role, role[b.stage.table := x], b.root, {b.stage.table}, builds, id,
            Growing(b.image, b.root, b.i, Filled(b.stage.page)))
  {
    assert BuildOk(mem, role, kroot, builds[id]);
    OnlyBuild(mem, role, kroot, builds, id, builds[id].root);
    hide BuildOk, BuildsOk;
  }

  lemma LeafKeeps(mem: Mem, role: Roles, kroot: nat, procs: Table, builds: Builds, id: nat, boot: Mem)
    requires TreeOk(mem, role, kroot) && BuildsOk(mem, role, kroot, builds) && id in builds && builds[id].Growing?
    requires builds[id].stage.Filled?
    requires LowOf(mem, builds[id].root, TargetAt(builds[id].image, builds[id].i)).Some?
    requires SpacesOk(role, kroot, procs, Roots(builds)) && HeapsOk(mem, procs) && KernelKept(boot, mem, kroot)
    ensures
      var vp := TargetAt(builds[id].image, builds[id].i);
      var low := LowOf(mem, builds[id].root, vp).value;
      && low in mem && V0(vp) < |mem[low]| && low in role && role[low].Low?
      && builds[id].stage.page in role && role[builds[id].stage.page].Loose?
    ensures
      var image, r, i, q := builds[id].image, builds[id].root, builds[id].i, builds[id].stage.page;
      var vp, low := TargetAt(image, i), LowOf(mem, r, TargetAt(image, i)).value;
      var mem', role' := SetWord(mem, low, V0(vp), LeafPte(q, PermAt(image, i))), role[q := Frame(low, V0(vp))];
      var builds' := builds[id := Growing(image, r, i + 1, NeedPage)];
      && TreeOk(mem', role', kroot)
      && BuildsOk(mem', role', kroot, builds') && SpacesOk(role', kroot, procs, Roots(builds')) && HeapsOk(mem', procs)
      && KernelKept(boot, mem', kroot)
      && forall j :: 0 <= j < |procs| && procs[j].Some? && procs[j].value.userTable.Some? ==>
           View(mem', procs[j].value.pageTable) == View(mem, procs[j].value.pageTable)
  {
    hide V0, V1, Ptr, IsValid, Ppn, ImagePages, TargetAt, ContentAt, PermAt, Loaded, View, LeafPte, TreeOk, BuildsOk,
         Roots, Mapped, Beside, Moves, HeapsOk, KernelKept;
    var image, r, i, q := builds[id].image, builds[id].root, builds[id].i, builds[id].stage.page;
    BuildAt(mem, role, kroot, builds, id);
    var vp, low := TargetAt(image, i), LowOf(mem, r, TargetAt(image, i)).value;
    LoadedNext(image, i);
    LowOfRole(mem, role, kroot, r, vp);
    LeafWritten(mem, role, kroot, image, r, i, q);
    hide LowOf;
    var mem', role' := SetWord(mem, low, V0(vp), LeafPte(q, PermAt(image, i))), role[q := Frame(low, V0(vp))];
    var b := Growing(image, r, i + 1, NeedPage);
    MappedKernel(mem, role, mem', kroot, r, vp, q, PermAt(image, i));
    RootsStep(builds, id, b);
    assert Roots(builds[id := b]) == Roots(builds);
    LeafMoves(mem, role, kroot, builds, id, Frame(low, V0(vp)));
    hide BuildOk, SetWord, Hand;
    SpacesSame(role, role', kroot, procs, Roots(builds));
    hide SpacesOk;
    StepKeeps(mem, role, mem', role', kroot, r, {q}, procs, builds, id, b, boot);
  }

  lemma LeafMoves(mem: Mem, role: Roles, kroot: nat, builds: Builds, id: nat, x: Role)
    requires BuildsOk(mem, role, kroot, builds) && id in builds && builds[id].Growing? && builds[id].stage.Filled?
    requires !x.Loose?
    ensures
      var b := builds[id];
      Moves(role, role[b.stage.page := x], b.root, {b.stage.page}, builds, id,
            Growing(b.image, b.root, b.i + 1, NeedPage))
  {
    assert BuildOk(mem, role, kroot, builds[id]);
    OnlyBuild(mem, role, kroot, builds, id, builds[id].root);
    hide BuildOk, BuildsOk;
  }

  /** make_user_table fills the page with the kernel's entries; it is a root from here on. */
  method MakeRoot(pt: ProcTable, id: nat)
    requires pt.Valid() && id in pt.builds && pt.builds[id].Rooting? && pt.builds[id].clean
    modifies pt`builds, pt.phys
    ensures pt.Valid() && pt.OthersKept(|pt.procs|) && pt.phys.freePages == old(pt.phys.freePages)
    ensures pt.builds == old(pt.builds)[id := Growing(old(pt.builds)[id].image, old(pt.builds)[id].page, 0, NeedPage)]
  {
    hide BuildsOk, BuildOk, Roots, SpacesOk, HeapsOk, KernelKept, PidsOk, RunOk, TreeOk, FreeOk, View;
    RootKeeps(pt.phys.mem, pt.phys.role, pt.phys.kernelRoot, pt.procs, pt.builds, id, pt.boot);
    PageIn(pt.phys.mem, pt.phys.role, pt.phys.kernelRoot, pt.phys.kernelRoot) by {
      KernelRootIn(pt.phys.mem, pt.phys.role, pt.phys.kernelRoot);
    }
    var b := pt.builds[id];
    NonFreeRole(pt.phys.mem, pt.phys.role, pt.phys.free, pt.phys.head, pt.phys.freePages, b.page, Root);
    pt.phys.role := pt.phys.role[b.page := Root];
    NonFreeWrite(pt.phys.mem, pt.phys.role, pt.phys.free, pt.phys.head, pt.phys.freePages, b.page,
                 pt.phys.mem[pt.phys.kernelRoot]);
    pt.phys.mem := pt.phys.mem[b.page := pt.phys.mem[pt.phys.kernelRoot]];
    pt.builds := pt.builds[id := Growing(b.image, b.page, 0, NeedPage)];
  }

  /** The copy of one page of the image; the stack page stays as it was allocated, zeroed. */
  method Fill(pt: ProcTable, id: nat)
    requires pt.Valid() && id in pt.builds && pt.builds[id].Growing? && pt.builds[id].stage.HavePage?
    requires pt.builds[id].stage.clean
    modifies pt`builds, pt.phys
    ensures pt.Valid() && pt.OthersKept(|pt.procs|) && pt.phys.freePages == old(pt.phys.freePages)
    ensures
      var b := old(pt.builds)[id];
      pt.builds == old(pt.builds)[id := Growing(b.image, b.root, b.i, Filled(b.stage.page))]
  {
    hide BuildsOk, BuildOk, Roots, SpacesOk, HeapsOk, KernelKept, PidsOk, RunOk, TreeOk, FreeOk, View, ContentAt;
    FillKeeps(pt.phys.mem, pt.phys.role, pt.phys.kernelRoot, pt.procs, pt.builds, id, pt.boot);
    var b := pt.builds[id];
    var page := ContentAt(b.image, b.i);
    NonFreeWrite(pt.phys.mem, pt.phys.role, pt.phys.free, pt.phys.head, pt.phys.freePages, b.stage.page, page);
    pt.phys.mem := pt.phys.mem[b.stage.page := page];
    pt.builds := pt.builds[id := Growing(b.image, b.root, b.i, Filled(b.stage.page))];
  }

  /** The walk links the table it allocated. */
  method LinkTable(pt: ProcTable, id: nat)
    requires pt.Valid() && id in pt.builds && pt.builds[id].Growing? && pt.builds[id].stage.HaveTable?
    requires pt.builds[id].stage.clean
    modifies pt`builds, pt.phys
    ensures pt.Valid() && pt.OthersKept(|pt.procs|) && pt.phys.freePages == old(pt.phys.freePages)
    ensures
      var b := old(pt.builds)[id];
      pt.builds == old(pt.builds)[id := Growing(b.image, b.root, b.i, Filled(b.stage.page))]
  {
    hide BuildsOk, BuildOk, Roots, SpacesOk, HeapsOk, KernelKept, PidsOk, RunOk, TreeOk, FreeOk, View, TargetAt, LinkAt,
         Ptr, LinkRole;
    LinkKeeps(pt.phys.mem, pt.phys.role, pt.phys.kernelRoot, pt.procs, pt.builds, id, pt.boot);
    var b := pt.builds[id];
    var (table, k) := LinkAt(pt.phys.mem, b.root, TargetAt(b.image, b.i));
    PageIn(pt.phys.mem, pt.phys.role, pt.phys.kernelRoot, table);
    ghost var x := LinkRole(pt.phys.role, table, k);
    LinkRoleUsed(pt.phys.role, table, k);
    NonFreeRole(pt.phys.mem, pt.phys.role, pt.phys.free, pt.phys.head, pt.phys.freePages, b.stage.table, x);
    pt.phys.role := pt.phys.role[b.stage.table := x];
    NonFreeWrite(pt.phys.mem, pt.phys.role, pt.phys.free, pt.phys.head, pt.phys.freePages, table,
                 pt.phys.mem[table][k := Ptr(b.stage.table)]);
    pt.phys.mem := SetWord(pt.phys.mem, table, k, Ptr(b.stage.table));
    pt.builds := pt.builds[id := Growing(b.image, b.root, b.i, Filled(b.stage.page))];
  }

  lemma LinkRoleUsed(role: Roles, t: nat, i: nat)
    requires t in role
    ensures !LinkRole(role, t, i).Free?
  {
  }

  /** map_pages writes the leaf: one more page of the image is visible. */
  method WriteLeaf(pt: ProcTable, id: nat)
    requires pt.Valid() && id in pt.builds && pt.builds[id].Growing? && pt.builds[id].stage.Filled?
    requires LowOf(pt.phys.mem, pt.builds[id].root, TargetAt(pt.builds[id].image, pt.builds[id].i)).Some?
    modifies pt`builds, pt.phys
    ensures pt.Valid() && pt.OthersKept(|pt.procs|) && pt.phys.freePages == old(pt.phys.freePages)
    ensures
      var b := old(pt.builds)[id];
      pt.builds == old(pt.builds)[id := Growing(b.image, b.root, b.i + 1, NeedPage)]
  {
    hide BuildsOk, BuildOk, Roots, SpacesOk, HeapsOk, KernelKept, PidsOk, RunOk, TreeOk, FreeOk, View, TargetAt, LowOf,
         LeafPte, PermAt, V0;
    LeafKeeps(pt.phys.mem, pt.phys.role, pt.phys.kernelRoot, pt.procs, pt.builds, id, pt.boot);
    var b := pt.builds[id];
    var vp := TargetAt(b.image, b.i);
    var low := LowOf(pt.phys.mem, b.root, vp).value;
    PageIn(pt.phys.mem, pt.phys.role, pt.phys.kernelRoot, low);
    NonFreeRole(pt.phys.mem, pt.phys.role, pt.phys.free, pt.phys.head, pt.phys.freePages, b.stage.page,
                Frame(low, V0(vp)));
    pt.phys.role := pt.phys.role[b.stage.page := Frame(low, V0(vp))];
    var e := LeafPte(b.stage.page, PermAt(b.image, b.i));
    NonFreeWrite(pt.phys.mem, pt.phys.role, pt.phys.free, pt.phys.head, pt.phys.freePages, low,
                 pt.phys.mem[low][V0(vp) := e]);
    pt.phys.mem := SetWord(pt.phys.mem, low, V0(vp), e);
    pt.builds := pt.builds[id := Growing(b.image, b.root, b.i + 1, NeedPage)];
  }

  /** Has load_user_image returned? */
  predicate Complete(b: Build) { b.Growing? && b.stage.NeedPage? && b.i == ImagePages(b.image) + 1 }

  /** spawn_with after it has taken a pid: the finished image becomes a process that runs it. */
  method Finish(pt: ProcTable, id: nat, pid: nat)
    requires pt.Valid() && id in pt.builds && Complete(pt.builds[id]) && pid in pt.pending
    modifies pt`procs, pt`pending, pt`builds
    ensures pt.Valid() && pt.builds == old(pt.builds) - {id} && pt.pending == old(pt.pending) - {pid}
    ensures
      var b, i := old(pt.builds)[id], FirstFree(old(pt.procs));
      && i < |pt.procs| && pt.procs == Place(old(pt.procs), Fresh(pid, b.root))
      && pt.procs[i] == Some(Fresh(pid, b.root)) && pt.Memory(i) == ImageView(b.image) && pt.OthersKept(i)
      && (IsImage(b.image) ==> StartsProgram(pt.procs[i].value, pt.Memory(i), b.image))
      && (forall fd :: fd in pt.procs[i].value.fds ==> fd.None?)
  {
    hide BuildsOk, BuildOk, Roots, SpacesOk, KernelKept, PidsOk, RunOk, TreeOk, FreeOk, View, HeapOk, ImageView,
         StartsProgram;
    var b := pt.builds[id];
    ghost var building := Roots(pt.builds);
    FinishOk(pt.phys.mem, pt.phys.role, pt.phys.kernelRoot, pt.builds, id);
    ImageHeapOk(b.image);
    if IsImage(b.image) {
      BuildAt(pt.phys.mem, pt.phys.role, pt.phys.kernelRoot, pt.builds, id);
      LoadableBuild(pt.phys.mem, pt.phys.role, pt.phys.kernelRoot, b);
      FreshStarts(Fresh(pid, b.root), b.image);
    }
    pt.Publish(Fresh(pid, b.root), building);
    pt.builds := pt.builds - {id};
  }

  lemma LoadableBuild(mem: Mem, role: Roles, kroot: nat, b: Build)
    requires BuildOk(mem, role, kroot, b)
    ensures LoadableImage(b.image)
  {
  }

  lemma FinishOk(mem: Mem, role: Roles, kroot: nat, builds: Builds, id: nat)
    requires BuildsOk(mem, role, kroot, builds) && id in builds && Complete(builds[id])
    ensures
      var b := builds[id];
      && LoadableImage(b.image) && View(mem, b.root) == ImageView(b.image)
      && b.root in role && role[b.root].Root? && b.root != kroot && b.root in Roots(builds)
      && BuildsOk(mem, role, kroot, builds - {id}) && Roots(builds - {id}) == Roots(builds) - {b.root}
  {
    BuildAt(mem, role, kroot, builds, id);
    var b, builds' := builds[id], builds - {id};
    forall r | r in Roots(builds) && r != b.root ensures r in Roots(builds') {
      var j :| j in builds && builds[j].Growing? && builds[j].root == r;
      assert j in builds' && builds'[j].Growing?;
    }
    forall r | r in Roots(builds') ensures r in Roots(builds) && r != b.root {
      var j :| j in builds' && builds'[j].Growing? && builds'[j].root == r;
      assert HasRoot(builds[j], r) && HasRoot(builds[id], b.root);
    }
    hide BuildOk;
    forall p | p in role && role[p].Loose? ensures Claimed(builds', p) {
      var j :| j in builds && Claims(builds[j], p);
      assert Claims(builds'[j], p);
    }
  }

  datatype Progress = Working | Ready | OutOfPages

  /** Whatever the build has to do next. */
  method Step(pt: ProcTable, id: nat) returns (r: Progress)
    requires pt.Valid() && id in pt.builds
    modifies pt`builds, pt.phys
    ensures pt.Valid() && pt.OthersKept(|pt.procs|)
    ensures id in pt.builds && pt.builds == old(pt.builds)[id := pt.builds[id]]
    ensures pt.builds[id].image == old(pt.builds)[id].image
    ensures r.Ready? <==> Complete(old(pt.builds)[id])
    ensures r.OutOfPages? ==> old(pt.phys.freePages) == 0
    ensures !r.Working? ==> unchanged(pt) && unchanged(pt.phys)
  {
    hide BuildsOk, BuildOk, Roots, SpacesOk, HeapsOk, KernelKept, PidsOk, RunOk, TreeOk, FreeOk, View, LowOf, TargetAt,
         ImagePages;
    var b := pt.builds[id];
    StageOk(pt.phys.mem, pt.phys.role, pt.phys.kernelRoot, pt.builds, id);
    if Unclean(b) {
      Zero(pt, id);
    } else if b.Rooting? {
      MakeRoot(pt, id);
    } else if b.Growing? && b.stage.HavePage? {
      Fill(pt, id);
    } else if b.Growing? && b.stage.HaveTable? {
      LinkTable(pt, id);
    } else if b.Growing? && b.stage.Filled? && LowOf(pt.phys.mem, b.root, TargetAt(b.image, b.i)).Some? {
      WriteLeaf(pt, id);
    } else if Complete(b) {
      return Ready;
    } else {
      var q := Take(pt, id);
      return if q.None? then OutOfPages else Working;
    }
    return Working;
  }

  lemma StageOk(mem: Mem, role: Roles, kroot: nat, builds: Builds, id: nat)
    requires BuildsOk(mem, role, kroot, builds) && id in builds
    ensures builds[id].Growing? ==> builds[id].i <= ImagePages(builds[id].image) + 1
  {
    BuildAt(mem, role, kroot, builds, id);
  }
}
