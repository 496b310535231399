/**
 Address spaces under construction (src/proc.rs:199-236).  spawn_user builds its image with interrupts on, so
 a build is state of its own: other threads run between any two of its steps.  Taking a page off the free list is a
 step, since it runs under a lock, and so are zeroing it, filling it, and each write to a table.
 */
module Builds {
  import opened Options
  import opened Bytes
  import opened PageTables
  import opened Phys
  import opened UserTables
  import opened AddressSpaces

  /** The local variables of `load_user_image` between two steps. */
  datatype Stage =
    | NeedPage                                      // about to allocate the next page
    | HavePage(page: nat, clean: bool)              // it is allocated, and zeroed if `clean`
    | Filled(page: nat)                             // it has its contents; map_pages walks
    | HaveTable(page: nat, table: nat, clean: bool) // the walk has allocated a missing table, zeroed if `clean`

  /** `i` pages of the image are mapped; the last page is the stack. */
  datatype Build =
    | Starting(image: seq<nat>)
    | Rooting(image: seq<nat>, page: nat, clean: bool)
    | Growing(image: seq<nat>, root: nat, i: nat, stage: Stage)

  type Builds = map<nat, Build>

  // --- the pages of an image in order ---

  function TargetAt(image: seq<nat>, i: nat): nat { if i < ImagePages(image) then USER_VP + i else STACK_VP }
  function ContentAt(image: seq<nat>, i: nat): (page: seq<nat>)
    ensures |page| == WORDS
  {
    if i < ImagePages(image) then ImagePage(image, i * 4096) else ZEROS
  }
  function PermAt(image: seq<nat>, i: nat): nat { if i < ImagePages(image) then PERM_TEXT else PERM_DATA }

  /** What is visible once `i` pages are mapped. */
  function Loaded(image: seq<nat>, i: nat): map<nat, Leaf>
  {
    if i <= ImagePages(image) then TextView(image, i) else ImageView(image)
  }

  lemma LoadedNext(image: seq<nat>, i: nat)
    requires LoadableImage(image) && i <= ImagePages(image)
    ensures InUser(TargetAt(image, i)) && TargetAt(image, i) !in Loaded(image, i)
    ensures Loaded(image, i + 1) == Loaded(image, i)[TargetAt(image, i) := Leaf(ContentAt(image, i), PermAt(image, i))]
    ensures Loaded(image, 0) == map[]
  {
    hide ImagePage;
    TextNext(image, i);
    TextNext(image, 0);
  }

  // --- whose pages they are ---

  /** The pages a build has in hand: allocated, and not yet in any table. */
  predicate Claims(b: Build, p: nat)
  {
    match b
    case Starting(_) => false
    case Rooting(_, q, _) => p == q
    case Growing(_, _, _, NeedPage) => false
    case Growing(_, _, _, HavePage(q, _)) => p == q
    case Growing(_, _, _, Filled(q)) => p == q
    case Growing(_, _, _, HaveTable(q, t, _)) => p == q || p == t
  }

  predicate HasRoot(b: Build, r: nat) { b.Growing? && b.root == r }

  function Roots(builds: Builds): set<nat>
  {
    set id | id in builds && builds[id].Growing? :: builds[id].root
  }

  /** A loose page with these contents. */
  predicate Hand(mem: Mem, role: Roles, p: nat, page: seq<nat>)
  {
    p in role && role[p].Loose? && p in mem && mem[p] == page
  }

  /** A loose page, zeroed if `clean`. */
  predicate Picked(mem: Mem, role: Roles, p: nat, clean: bool)
  {
    p in role && role[p].Loose? && p in mem && (clean ==> mem[p] == ZEROS)
  }

  ghost predicate BuildOk(mem: Mem, role: Roles, kroot: nat, b: Build)
  {
    && LoadableImage(b.image)
    && match b
       case Starting(_) => true
       case Rooting(_, p, clean) => Picked(mem, role, p, clean)
       case Growing(image, r, i, st) =>
         && r in role && role[r].Root? && r != kroot
         && i <= ImagePages(image) + 1 && (!st.NeedPage? ==> i <= ImagePages(image))
         && View(mem, r) == Loaded(image, i)
         && match st
            case NeedPage => true
            case HavePage(p, clean) => Picked(mem, role, p, clean)
            case Filled(p) => Hand(mem, role, p, ContentAt(image, i))
            case HaveTable(p, t, clean) =>
              && Hand(mem, role, p, ContentAt(image, i)) && Picked(mem, role, t, clean) && p != t
              && LowOf(mem, r, TargetAt(image, i)).None?
  }

  predicate Claimed(builds: Builds, p: nat) { exists id :: id in builds && Claims(builds[id], p) }

  /** Every build is on course, no two share a page or a root, and every loose page is in some build's hands. */
  ghost predicate BuildsOk(mem: Mem, role: Roles, kroot: nat, builds: Builds)
  {
    && (forall id :: id in builds ==> BuildOk(mem, role, kroot, builds[id]))
    && (forall i, j, p :: i in builds && j in builds && Claims(builds[i], p) && Claims(builds[j], p) ==> i == j)
    && (forall i, j, r :: i in builds && j in builds && HasRoot(builds[i], r) && HasRoot(builds[j], r) ==> i == j)
    && (forall p :: p in role && role[p].Loose? ==> Claimed(builds, p))
  }

  // --- what goes on beside a build ---

  /** Pages in use that do not belong to `r`, and are not in `ps`, kept their role, their owner and their words. */
  ghost predicate Beside(mem0: Mem, role0: Roles, mem: Mem, role: Roles, r: nat, ps: set<nat>)
  {
    && role.Keys == role0.Keys
    && forall p :: p in role0 && !role0[p].Free? && Owner(role0, p) != Some(r) && p !in ps ==>
         role[p] == role0[p] && Owner(role, p) == Owner(role0, p) && p in mem && p in mem0 && mem[p] == mem0[p]
  }

  lemma BesideLow(mem0: Mem, role0: Roles, mem: Mem, role: Roles, kroot: nat, r: nat, ps: set<nat>, t: nat, u: nat)
    requires TreeOk(mem0, role0, kroot) && Beside(mem0, role0, mem, role, r, ps)
    requires t in role0 && role0[t].Root? && t != kroot && t != r && InUser(u)
    requires forall p :: p in ps ==> p in role0 && (role0[p].Loose? || role0[p].Free?)
    ensures LowOf(mem, t, u) == LowOf(mem0, t, u) && Lookup(mem, t, u) == Lookup(mem0, t, u)
    ensures Lookup(mem0, t, u).Some? ==>
              var f := Ppn(Lookup(mem0, t, u).value);
              f in mem && f in mem0 && mem[f] == mem0[f]
  {
    assert DownOk(mem0, role0, kroot, t, V2(u));
    hide Ptr, LeafPte, HasU, IsPerm, PermOf, IsValid, Ppn;
    if LowOf(mem0, t, u).Some? {
      LowOfRole(mem0, role0, kroot, t, u);
    }
    if Lookup(mem0, t, u).Some? {
      UserLeaf(mem0, role0, kroot, t, u);
    }
  }

  lemma BesideView(mem0: Mem, role0: Roles, mem: Mem, role: Roles, kroot: nat, r: nat, ps: set<nat>, t: nat)
    requires TreeOk(mem0, role0, kroot) && Beside(mem0, role0, mem, role, r, ps)
    requires t in role0 && role0[t].Root? && t != kroot && t != r
    requires forall p :: p in ps ==> p in role0 && (role0[p].Loose? || role0[p].Free?)
    ensures View(mem, t) == View(mem0, t) && t in role && role[t].Root?
  {
    forall u: nat | InUser(u)
      ensures Lookup(mem, t, u) == Lookup(mem0, t, u)
      ensures Lookup(mem0, t, u).Some? ==>
          PageAt(mem, Ppn(Lookup(mem0, t, u).value)) == PageAt(mem0, Ppn(Lookup(mem0, t, u).value))
    {
      BesideLow(mem0, role0, mem, role, kroot, r, ps, t, u);
    }
    hide TreeOk, Lookup, LowOf, Ppn, PermOf, PageAt;
  }

  lemma BesideBuild(mem0: Mem, role0: Roles, mem: Mem, role: Roles, kroot: nat, r: nat, ps: set<nat>, b: Build)
    requires TreeOk(mem0, role0, kroot) && Beside(mem0, role0, mem, role, r, ps) && BuildOk(mem0, role0, kroot, b)
    requires forall p :: p in ps ==> p in role0 && (role0[p].Loose? || role0[p].Free?) && !Claims(b, p)
    requires !HasRoot(b, r)
    ensures BuildOk(mem, role, kroot, b)
  {
    hide TreeOk, View, Lookup, LowOf, Loaded, LoadableImage, ImagePages, ContentAt, TargetAt, Ppn;
    if b.Growing? {
      BesideView(mem0, role0, mem, role, kroot, r, ps, b.root);
      if b.stage.HaveTable? {
        LoadedNext(b.image, b.i);
        BesideLow(mem0, role0, mem, role, kroot, r, ps, b.root, TargetAt(b.image, b.i));
      }
    }
  }

  /** Steps of the rest of the kernel leave every build on course. */
  lemma BesideBuilds(mem0: Mem, role0: Roles, mem: Mem, role: Roles, kroot: nat, r: nat, builds: Builds)
    requires TreeOk(mem0, role0, kroot) && Beside(mem0, role0, mem, role, r, {}) && BuildsOk(mem0, role0, kroot, builds)
    requires r !in Roots(builds)
    requires forall p :: p in role && role[p].Loose? ==> role0[p].Loose?
    ensures BuildsOk(mem, role, kroot, builds)
  {
    forall id | id in builds ensures BuildOk(mem, role, kroot, builds[id]) {
      assert HasRoot(builds[id], r) ==> r in Roots(builds);
      BesideBuild(mem0, role0, mem, role, kroot, r, {}, builds[id]);
    }
    hide TreeOk, BuildOk, Beside;
  }

  lemma ClaimsLoose(mem: Mem, role: Roles, kroot: nat, b: Build, p: nat)
    requires BuildOk(mem, role, kroot, b) && Claims(b, p)
    ensures p in role && role[p].Loose?
  {
    hide View, Loaded, LowOf, ImagePages;
  }

  /** What a step of build `id` may do to pages and roots: it takes free pages and moves its own. */
  ghost predicate Moves(role0: Roles, role: Roles, r: nat, ps: set<nat>, builds: Builds, id: nat, b: Build)
  {
    && (forall p :: p in ps ==>
          p in role0 && (role0[p].Free? || (role0[p].Loose? && id in builds && Claims(builds[id], p))))
    && (forall j :: j in builds && j != id ==> !HasRoot(builds[j], r))
    && (b.Growing? ==> forall j :: j in builds && j != id ==> !HasRoot(builds[j], b.root))
    && (forall p :: Claims(b, p) ==> p in role0 && (role0[p].Free? || (id in builds && Claims(builds[id], p))))
    && (forall p :: p in role && role[p].Loose? ==>
          Claims(b, p) || (p in role0 && role0[p].Loose? && (id in builds ==> !Claims(builds[id], p))))
  }

  lemma OthersOn(mem0: Mem, role0: Roles, mem: Mem, role: Roles, kroot: nat, r: nat, ps: set<nat>, builds: Builds,
                 id: nat, b: Build, j: nat)
    requires TreeOk(mem0, role0, kroot) && Beside(mem0, role0, mem, role, r, ps) && BuildsOk(mem0, role0, kroot, builds)
    requires Moves(role0, role, r, ps, builds, id, b) && j in builds && j != id
    ensures BuildOk(mem, role, kroot, builds[j])
  {
    hide TreeOk, Beside, BuildOk, Claims;
    forall p | p in ps ensures !Claims(builds[j], p) {
      if Claims(builds[j], p) {
        ClaimsLoose(mem0, role0, kroot, builds[j], p);
      }
    }
    BesideBuild(mem0, role0, mem, role, kroot, r, ps, builds[j]);
  }

  /** A build that moves on claims what it holds next; the others stay on course. */
  lemma BuildsStep(mem0: Mem, role0: Roles, mem: Mem, role: Roles, kroot: nat, r: nat, ps: set<nat>, builds: Builds,
                   id: nat, b: Build)
    requires TreeOk(mem0, role0, kroot) && Beside(mem0, role0, mem, role, r, ps) && BuildsOk(mem0, role0, kroot, builds)
    requires BuildOk(mem, role, kroot, b) && Moves(role0, role, r, ps, builds, id, b)
    ensures BuildsOk(mem, role, kroot, builds[id := b])
  {
    hide TreeOk, Beside, BuildOk, Claims;
    var builds' := builds[id := b];
    forall j | j in builds && j != id
      ensures BuildOk(mem, role, kroot, builds[j])
      ensures forall p :: Claims(builds[j], p) ==> p in role0 && role0[p].Loose?
    {
      OthersOn(mem0, role0, mem, role, kroot, r, ps, builds, id, b, j);
      forall p | Claims(builds[j], p) ensures p in role0 && role0[p].Loose? {
        ClaimsLoose(mem0, role0, kroot, builds[j], p);
      }
    }
    forall p | p in role && role[p].Loose? ensures Claimed(builds', p) {
      if Claims(b, p) {
        assert Claims(builds'[id], p);
      } else {
        var j :| j in builds && Claims(builds[j], p);
        assert Claims(builds'[j], p);
      }
    }
  }
}
