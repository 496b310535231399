/**
 What a process sees of memory, and the two ways it is filled: `clone_user_table` for fork
 (src/vm.rs:255-285) and `load_user_image` for spawn and exec (src/proc.rs:199-236).
 */
module AddressSpaces {
  import opened Options
  import opened Bytes
  import opened PageTables
  import opened Phys
  import opened UserTables

  predicate InUser(v: nat) { USER_VP <= v < USER_VP + 0x4_0000 }

  /** One page as user code sees it. */
  datatype Leaf = Leaf(page: seq<nat>, perm: nat)

  function PageAt(mem: Mem, p: nat): seq<nat>
  {
    if p in mem then mem[p] else []
  }

  /** The private half of an address space: virtual page -> contents and permissions.
      Which frames hold the contents is not visible. */
  ghost function View(mem: Mem, root: nat): map<nat, Leaf>
  {
    map u: nat | USER_VP <= u < USER_VP + 0x4_0000 && Lookup(mem, root, u).Some? ::
      Leaf(PageAt(mem, Ppn(Lookup(mem, root, u).value)), PermOf(Lookup(mem, root, u).value))
  }

  /** A private mapping is a user mapping onto a frame that no other slot maps. */
  lemma UserLeaf(mem: Mem, role: Roles, kroot: nat, root: nat, v: nat)
    requires TreeOk(mem, role, kroot) && root in role && role[root].Root? && root != kroot && InUser(v)
    requires Lookup(mem, root, v).Some?
    ensures
      var e := Lookup(mem, root, v).value;
      && Ppn(e) in role && role[Ppn(e)].Frame? && Owner(role, Ppn(e)) == Some(root)
      && IsPerm(PermOf(e)) && HasU(e) && e == LeafPte(Ppn(e), PermOf(e))
      && Ppn(e) in mem && |mem[Ppn(e)]| == WORDS
      && LowOf(mem, root, v).Some? && role[Ppn(e)] == Frame(LowOf(mem, root, v).value, V0(v))
  {
    LowOfRole(mem, role, kroot, root, v);
    assert DownOk(mem, role, kroot, LowOf(mem, root, v).value, V0(v));
  }

  /** The view of a space depends on its translations and on the contents of its own frames. */
  lemma ViewFrame(mem0: Mem, role0: Roles, kroot: nat, mem: Mem, r: nat)
    requires TreeOk(mem0, role0, kroot) && r in role0 && role0[r].Root? && r != kroot
    requires SameMaps(mem0, mem, role0)
    requires forall p :: p in role0 && role0[p].Frame? && Owner(role0, p) == Some(r) ==> p in mem && mem[p] == mem0[p]
    ensures View(mem, r) == View(mem0, r)
  {
    forall u: nat | InUser(u) && Lookup(mem0, r, u).Some?
      ensures PageAt(mem, Ppn(Lookup(mem0, r, u).value)) == PageAt(mem0, Ppn(Lookup(mem0, r, u).value))
    {
      UserLeaf(mem0, role0, kroot, r, u);
    }
    forall u: nat | InUser(u) ensures Lookup(mem, r, u) == Lookup(mem0, r, u) {
    }
  }

  /** Mapping a fresh page adds exactly that page to the view of its space. */
  lemma ViewFresh(mem: Mem, role: Roles, mem': Mem, role': Roles, kroot: nat, c: nat, v: nat, f: nat, page: seq<nat>,
                 perm: nat, fs: set<nat>)
    requires TreeOk(mem, role, kroot) && c in role && role[c].Root? && c != kroot && InUser(v) && IsPerm(perm)
    requires Mapped(mem, mem', role, c, v, f, 1, perm) && Grew(mem, role, mem', role', c, fs)
    requires f in mem' && mem'[f] == page
    ensures View(mem', c) == View(mem, c)[v := Leaf(page, perm)]
  {
    hide TreeOk, LowOf, Owner, Lookup;
    LeafBits(f, perm);
    hide LeafPte, PermOf, Ppn;
    forall u: nat | InUser(u) && u != v ensures Lookup(mem', c, u) == Lookup(mem, c, u) {
    }
    forall u: nat | InUser(u) && u != v && Lookup(mem, c, u).Some?
      ensures PageAt(mem', Ppn(Lookup(mem, c, u).value)) == PageAt(mem, Ppn(Lookup(mem, c, u).value))
    {
      UserLeaf(mem, role, kroot, c, u);
    }
    assert Lookup(mem', c, v) == Some(LeafPte(f, perm));
  }

  // --- filling a new space ---

  /** `c` is a new space with the kernel's half and `want` in its private half; every other space is untouched. */
  ghost predicate Filling(mem0: Mem, role0: Roles, mem: Mem, role: Roles, kroot: nat, c: nat, want: map<nat, Leaf>)
  {
    && Built(mem0, role0, mem, role, c)
    && SameMaps(mem0, mem, role0)
    && (forall u: nat {:trigger Lookup(mem, c, u)} :: u < VP_END && !InUser(u) ==>
          Lookup(mem, c, u) == Lookup(mem0, kroot, u))
    && View(mem, c) == want
  }

  lemma FillStart(mem0: Mem, role0: Roles, mem: Mem, kroot: nat, c: nat)
    requires TreeOk(mem0, role0, kroot) && c in role0 && role0[c].Free?
    requires mem == mem0[c := mem0[kroot]] && SameMaps(mem0, mem, role0)
    requires forall u: nat :: u < VP_END ==> Lookup(mem, c, u) == Lookup(mem0, kroot, u)
    ensures Filling(mem0, role0, mem, role0[c := Root], kroot, c, map[])
  {
    BuiltNew(mem0, role0, kroot, c, mem0[kroot]);
    forall u: nat | InUser(u) ensures Lookup(mem, c, u).None? {
      assert DownOk(mem0, role0, kroot, kroot, V2(u));
    }
  }

  lemma FillStep(mem0: Mem, role0: Roles, mem: Mem, role: Roles, mem': Mem, role': Roles, kroot: nat, c: nat,
                 want: map<nat, Leaf>, v: nat, f: nat, page: seq<nat>, perm: nat)
    requires TreeOk(mem0, role0, kroot) && TreeOk(mem, role, kroot) && InUser(v) && IsPerm(perm)
    requires Filling(mem0, role0, mem, role, kroot, c, want)
    requires Mapped(mem, mem', role, c, v, f, 1, perm) && Grew(mem, role, mem', role', c, {})
    requires f in mem' && mem'[f] == page
    ensures Filling(mem0, role0, mem', role', kroot, c, want[v := Leaf(page, perm)])
  {
    BuiltGrew(mem0, role0, kroot, mem, role, mem', role', c);
    ViewFresh(mem, role, mem', role', kroot, c, v, f, page, perm, {});
    forall r, u: nat | r in role0 && role0[r].Root? && u < VP_END ensures Lookup(mem', r, u) == Lookup(mem0, r, u) {
      assert r != c;
      assert Lookup(mem', r, u) == Lookup(mem, r, u);
    }
  }

  /** Where the next page of a space being filled may go. */
  lemma FillTarget(mem0: Mem, role0: Roles, mem: Mem, role: Roles, kroot: nat, c: nat, want: map<nat, Leaf>, v: nat)
    requires TreeOk(mem0, role0, kroot) && Filling(mem0, role0, mem, role, kroot, c, want) && InUser(v) && v !in want
    ensures c in role && role[c].Root? && c != kroot && Lookup(mem, c, v).None? && V2(v) == USER_SLOT
  {
    assert v !in View(mem, c);
  }

  /** Pages that were in use when the new space was started still hold what they held. */
  lemma OldWords(mem0: Mem, role0: Roles, mem: Mem, role: Roles, kroot: nat, c: nat, want: map<nat, Leaf>, p: nat)
    requires TreeOk(mem0, role0, kroot) && Filling(mem0, role0, mem, role, kroot, c, want)
    requires p in role0 && !role0[p].Free?
    ensures p in mem && |mem[p]| == WORDS && p in mem0 && mem[p] == mem0[p]
  {
  }

  // --- clone_user_table ---

  /** The part of a view the loops of the clone have passed. */
  function Below(view: map<nat, Leaf>, v: nat): map<nat, Leaf>
  {
    map u | u in view && u < v :: view[u]
  }

  /** The words the three nested steps read are the translation of the page they stand at. */
  lemma ParentLeaf(mem: Mem, role: Roles, kroot: nat, parent: nat, i: nat, j: nat)
    requires TreeOk(mem, role, kroot) && parent in role && role[parent].Root? && i < WORDS && j < WORDS
    ensures
      var e2 := Rd(mem, parent, USER_SLOT);
      if !IsValid(e2) then View(mem, parent) == map[] else
      parent != kroot && Ppn(e2) in role && !role[Ppn(e2)].Free? &&
      var e1 := Rd(mem, Ppn(e2), i);
      if !IsValid(e1)
      then Below(View(mem, parent), USER_VP + i * 512) == Below(View(mem, parent), USER_VP + (i + 1) * 512)
      else
      Ppn(e1) in role && !role[Ppn(e1)].Free? &&
      var e0 := Rd(mem, Ppn(e1), j);
      Lookup(mem, parent, USER_VP + i * 512 + j) == if IsValid(e0) then Some(e0) else None
  {
    if parent == kroot {
      assert DownOk(mem, role, kroot, parent, USER_SLOT);
    } else {
      SpacePath(mem, role, kroot, parent, i, j);
    }
    hide TreeOk, View, Below;
    if !IsValid(Rd(mem, parent, USER_SLOT)) {
      SlotEmpty(mem, parent);
    } else if !IsValid(Rd(mem, Ppn(Rd(mem, parent, USER_SLOT)), i)) {
      RowEmpty(mem, parent, i);
    } else {
      assert V2(USER_VP + i * 512 + j) == 1 && V1(USER_VP + i * 512 + j) == i && V0(USER_VP + i * 512 + j) == j;
    }
  }

  lemma SlotEmpty(mem: Mem, root: nat)
    requires !IsValid(Rd(mem, root, USER_SLOT))
    ensures View(mem, root) == map[]
  {
    assert forall u: nat :: InUser(u) ==> V2(u) == USER_SLOT;
  }

  lemma RowEmpty(mem: Mem, root: nat, i: nat)
    requires IsValid(Rd(mem, root, USER_SLOT)) && !IsValid(Rd(mem, Ppn(Rd(mem, root, USER_SLOT)), i)) && i < WORDS
    ensures Below(View(mem, root), USER_VP + i * 512) == Below(View(mem, root), USER_VP + (i + 1) * 512)
  {
    forall u: nat | USER_VP + i * 512 <= u < USER_VP + (i + 1) * 512 ensures Lookup(mem, root, u).None? {
      RowIndex(u, i);
    }
    hide Lookup, LowOf;
  }

  lemma RowIndex(u: nat, i: nat)
    requires USER_VP + i * 512 <= u < USER_VP + (i + 1) * 512 && i < WORDS
    ensures V2(u) == USER_SLOT && V1(u) == i
  {
    assert u / 512 == 512 + i;
  }

  lemma RdIs(mem: Mem, p: nat, i: nat)
    requires p in mem && i < |mem[p]|
    ensures Rd(mem, p, i) == mem[p][i]
  {
  }

  /** Clone the private half of `parent` into a new space. */
  method CloneUserTable(k: PhysMem, parent: nat) returns (child: Option<nat>)
    requires k.Booted() && k.IsRoot(parent)
    modifies k
    ensures k.Booted() && k.kernelRoot == old(k.kernelRoot)
    ensures child.None? ==> k.freePages == 0
    ensures child.Some? ==>
              Filling(old(k.mem), old(k.role), k.mem, k.role, k.kernelRoot, child.value, View(old(k.mem), parent))
  {
    hide TreeOk, FreeOk, SameMaps, Filling, Lookup, Mapped, Grew, Rd, View;
    ghost var mem0, role0, kroot := k.mem, k.role, k.kernelRoot;
    ghost var view := View(mem0, parent);
    ViewRange(mem0, parent);
    child := MakeUserTable(k);
    if child.None? {
      return;
    }
    var c := child.value;
    FillStart(mem0, role0, k.mem, kroot, c);
    OldWords(mem0, role0, k.mem, k.role, kroot, c, map[], parent);
    var e2 := k.mem[parent][USER_SLOT];
    RdIs(mem0, parent, USER_SLOT);
    ParentLeaf(mem0, role0, kroot, parent, 0, 0);
    if IsValid(e2) {
      var l1 := Ppn(e2);
      var i := 0;
      while i < WORDS
        invariant 0 <= i <= WORDS && k.Booted() && k.kernelRoot == kroot
        invariant Filling(mem0, role0, k.mem, k.role, kroot, c, Below(view, USER_VP + i * 512))
      {
        ParentLeaf(mem0, role0, kroot, parent, i, 0);
        OldWords(mem0, role0, k.mem, k.role, kroot, c, Below(view, USER_VP + i * 512), l1);
        var e1 := k.mem[l1][i];
        RdIs(mem0, l1, i);
        if IsValid(e1) {
          var l0 := Ppn(e1);
          var j := 0;
          while j < WORDS
            invariant 0 <= j <= WORDS && k.Booted() && k.kernelRoot == kroot
            invariant Filling(mem0, role0, k.mem, k.role, kroot, c, Below(view, USER_VP + i * 512 + j))
          {
            ParentLeaf(mem0, role0, kroot, parent, i, j);
            var ok := CloneLeaf(k, mem0, role0, parent, c, l0, i, j);
            if !ok {
              return None;
            }
            j := j + 1;
          }
        }
        i := i + 1;
      }
    }
  }

  lemma ViewRange(mem: Mem, root: nat)
    ensures Below(View(mem, root), USER_VP) == map[]
    ensures Below(View(mem, root), USER_VP + 0x4_0000) == View(mem, root)
  {
  }

  /** The innermost step: copy one frame, if there is one. */
  method CloneLeaf(k: PhysMem, ghost mem0: Mem, ghost role0: Roles, ghost parent: nat, c: nat, l0: nat, i: nat, j: nat)
    returns (ok: bool)
    requires k.Booted() && TreeOk(mem0, role0, k.kernelRoot)
    requires parent in role0 && role0[parent].Root? && parent != k.kernelRoot && i < WORDS && j < WORDS
    requires Filling(mem0, role0, k.mem, k.role, k.kernelRoot, c, Below(View(mem0, parent), USER_VP + i * 512 + j))
    requires l0 in role0 && !role0[l0].Free?
    requires Lookup(mem0, parent, USER_VP + i * 512 + j) ==
               if IsValid(Rd(mem0, l0, j)) then Some(Rd(mem0, l0, j)) else None
    modifies k
    ensures k.Booted() && k.kernelRoot == old(k.kernelRoot)
    ensures !ok ==> k.freePages == 0
    ensures ok ==>
              Filling(mem0, role0, k.mem, k.role, k.kernelRoot, c, Below(View(mem0, parent), USER_VP + i * 512 + j + 1))
  {
    hide TreeOk, FreeOk, SameMaps, Filling, Lookup, Mapped, Grew, Rd, View;
    ghost var kroot := k.kernelRoot;
    var va := USER_VP + i * 512 + j;
    ghost var done := Below(View(mem0, parent), va);
    OldWords(mem0, role0, k.mem, k.role, kroot, c, done, l0);
    RdIs(mem0, l0, j);
    BelowNext(mem0, parent, va);
    var e0 := k.mem[l0][j];
    if !IsValid(e0) {
      return true;
    }
    var perm := PermOf(e0);
    var src := Ppn(e0);
    UserLeaf(mem0, role0, kroot, parent, va);
    LeafBits(src, perm);
    OldWords(mem0, role0, k.mem, k.role, kroot, c, done, src);
    FillTarget(mem0, role0, k.mem, k.role, kroot, c, done, va);
    ghost var mem1, role1 := k.mem, k.role;
    var dst := k.MapFresh(c, va, k.mem[src], perm);
    if dst.None? {
      return false;
    }
    FillStep(mem0, role0, mem1, role1, k.mem, k.role, kroot, c, done, va, dst.value, mem0[src], perm);
    return true;
  }

  lemma BelowNext(mem: Mem, root: nat, v: nat)
    requires InUser(v)
    ensures v !in Below(View(mem, root), v)
    ensures Below(View(mem, root), v + 1) ==
            match Lookup(mem, root, v)
            case None => Below(View(mem, root), v)
            case Some(e) => Below(View(mem, root), v)[v := Leaf(PageAt(mem, Ppn(e)), PermOf(e))]
  {
  }

  // --- load_user_image ---

  /** The page below USER_STACK_TOP. */
  const STACK_VP := 0x4_0fff
  const PERM_TEXT := PTE_R + PTE_X + PTE_U
  const PERM_DATA := PTE_R + PTE_W + PTE_U

  function ImagePages(image: seq<nat>): nat { (|image| + 4095) / 4096 }

  /** The first `n` text pages of a program. */
  function TextView(image: seq<nat>, n: nat): map<nat, Leaf>
  {
    map u: nat | USER_VP <= u < USER_VP + n && InUser(u) :: Leaf(ImagePage(image, (u - USER_VP) * 4096), PERM_TEXT)
  }

  /** What a freshly loaded program sees: its image, read-execute, and one zeroed read-write stack page. */
  function ImageView(image: seq<nat>): map<nat, Leaf>
  {
    TextView(image, ImagePages(image))[STACK_VP := Leaf(ZEROS, PERM_DATA)]
  }

  predicate LoadableImage(image: seq<nat>)
  {
    0 < |image| && USER_VP + ImagePages(image) <= STACK_VP
  }

  predicate IsImage(image: seq<nat>) { forall n :: 0 <= n < |image| ==> image[n] < 256 }

  lemma ZeroByte(k: nat)
    requires k < 4096
    ensures ByteAt(ZEROS, k) == 0
  {
    ZeroDigit(k % 8);
  }

  /** Byte `n` of the image lies at 0x4000_0000 + n, in a page that can be read and run by user code but not written. */
  ghost predicate HasText(view: map<nat, Leaf>, image: seq<nat>, n: nat)
    requires n < |image|
  {
    var u := (0x4000_0000 + n) / 4096;
    && u in view && HasR(view[u].perm) && HasX(view[u].perm) && HasU(view[u].perm) && !HasW(view[u].perm)
    && ByteAt(view[u].page, n % 4096) == image[n]
  }

  /** Below 0x4100_0000 lies one page of zeros that user code can read and write but not run. */
  ghost predicate HasStack(view: map<nat, Leaf>)
  {
    && 0x4_0fff in view
    && var l := view[0x4_0fff];
       && HasR(l.perm) && HasW(l.perm) && HasU(l.perm) && !HasX(l.perm)
       && forall k: nat :: k < 4096 ==> ByteAt(l.page, k) == 0
  }

  /** Every page but the stack holds some byte of the image, and zeros past its end. */
  ghost predicate OnlyImage(view: map<nat, Leaf>, image: seq<nat>)
  {
    forall u :: u in view && u != 0x4_0fff ==>
      && 0x4000_0000 <= u * 4096 < 0x4000_0000 + |image|
      && forall k: nat :: k < 4096 && 0x4000_0000 + |image| <= u * 4096 + k ==> ByteAt(view[u].page, k) == 0
  }

  lemma ImagePageOf(image: seq<nat>, n: nat)
    ensures (0x4000_0000 + n) / 4096 == USER_VP + n / 4096 && n / 4096 * 4096 + n % 4096 == n
    ensures n < |image| ==> n / 4096 < ImagePages(image)
  {
  }

  lemma ViewText(image: seq<nat>, u: nat)
    requires LoadableImage(image)
    ensures u in ImageView(image) <==> USER_VP <= u < USER_VP + ImagePages(image) || u == STACK_VP
    ensures USER_VP <= u < USER_VP + ImagePages(image) ==>
              u != STACK_VP && ImageView(image)[u] == Leaf(ImagePage(image, (u - USER_VP) * 4096), PERM_TEXT)
    ensures ImageView(image)[STACK_VP] == Leaf(ZEROS, PERM_DATA)
  {
    hide ImagePage, ImagePages;
  }

  lemma PermBits()
    ensures HasR(PERM_TEXT) && HasX(PERM_TEXT) && HasU(PERM_TEXT) && !HasW(PERM_TEXT)
    ensures HasR(PERM_DATA) && HasW(PERM_DATA) && HasU(PERM_DATA) && !HasX(PERM_DATA)
  {
  }

  lemma TextAt(image: seq<nat>, n: nat)
    requires LoadableImage(image) && IsImage(image) && n < |image|
    ensures HasText(ImageView(image), image, n)
  {
    hide ImagePage, ByteAt, ImageView, ImagePages, LoadableImage, HasR, HasW, HasX, HasU;
    ImagePageOf(image, n);
    ViewText(image, USER_VP + n / 4096);
    PermBits();
    ImagePageGet(image, n / 4096 * 4096, n % 4096);
  }

  lemma TextTail(image: seq<nat>, u: nat, k: nat)
    requires LoadableImage(image) && IsImage(image) && USER_VP <= u < USER_VP + ImagePages(image)
    requires k < 4096 && 0x4000_0000 + |image| <= u * 4096 + k
    ensures ByteAt(ImagePage(image, (u - USER_VP) * 4096), k) == 0
  {
    hide ImagePage, ByteAt;
    ImagePageGet(image, (u - USER_VP) * 4096, k);
  }

  /** A loaded image is there, byte for byte, with its stack and nothing else. */
  lemma ImageShown(image: seq<nat>)
    requires LoadableImage(image) && IsImage(image)
    ensures forall n: nat :: n < |image| ==> HasText(ImageView(image), image, n)
    ensures HasStack(ImageView(image)) && OnlyImage(ImageView(image), image)
  {
    hide ByteAt, ImagePage, HasText, ImageView, LoadableImage, HasR, HasW, HasX, HasU;
    forall n: nat | n < |image| ensures HasText(ImageView(image), image, n) {
      TextAt(image, n);
    }
    PermBits();
    ViewText(image, STACK_VP);
    forall k: nat | k < 4096 ensures ByteAt(ZEROS, k) == 0 {
      ZeroByte(k);
    }
    var view := ImageView(image);
    forall u | u in view && u != 0x4_0fff
      ensures 0x4000_0000 <= u * 4096 < 0x4000_0000 + |image|
      ensures forall k: nat :: k < 4096 && 0x4000_0000 + |image| <= u * 4096 + k ==> ByteAt(view[u].page, k) == 0
    {
      ViewText(image, u);
      forall k: nat | k < 4096 && 0x4000_0000 + |image| <= u * 4096 + k ensures ByteAt(view[u].page, k) == 0 {
        TextTail(image, u, k);
      }
    }
  }

  /** An image can be loaded if and only if it is not empty and ends below the stack page. */
  lemma LoadableMeans(image: seq<nat>)
    ensures LoadableImage(image) <==> 0 < |image| <= 0xfff * 4096
  {
  }

  lemma FillView(mem0: Mem, role0: Roles, mem: Mem, role: Roles, kroot: nat, c: nat, want: map<nat, Leaf>)
    requires Filling(mem0, role0, mem, role, kroot, c, want)
    ensures View(mem, c) == want
  {
  }

  method LoadUserImage(k: PhysMem, image: seq<nat>) returns (table: Option<nat>)
    requires k.Booted() && LoadableImage(image)
    modifies k
    ensures k.Booted() && k.kernelRoot == old(k.kernelRoot)
    ensures table.None? ==> k.freePages == 0
    ensures table.Some? ==>
              Filling(old(k.mem), old(k.role), k.mem, k.role, k.kernelRoot, table.value, ImageView(image))
    ensures table.Some? && IsImage(image) ==>
              var view := View(k.mem, table.value);
              (forall n: nat :: n < |image| ==> HasText(view, image, n)) && HasStack(view) && OnlyImage(view, image)
  {
    hide TreeOk, FreeOk, SameMaps, Filling, Lookup, Mapped, Grew, TextView, ImagePage, HasText, HasStack, OnlyImage,
         IsImage, View;
    ghost var mem0, role0, kroot := k.mem, k.role, k.kernelRoot;
    table := MakeUserTable(k);
    if table.None? {
      return;
    }
    var c := table.value;
    FillStart(mem0, role0, k.mem, kroot, c);
    var npages := (|image| + 4095) / 4096;
    var i := 0;
    TextNext(image, 0);
    while i < npages
      invariant 0 <= i <= npages && k.Booted() && k.kernelRoot == kroot
      invariant Filling(mem0, role0, k.mem, k.role, kroot, c, TextView(image, i))
    {
      TextNext(image, i);
      FillTarget(mem0, role0, k.mem, k.role, kroot, c, TextView(image, i), USER_VP + i);
      ghost var mem1, role1 := k.mem, k.role;
      var page := k.MapFresh(c, USER_VP + i, ImagePage(image, i * 4096), PERM_TEXT);
      if page.None? {
        return None;
      }
      FillStep(mem0, role0, mem1, role1, k.mem, k.role, kroot, c, TextView(image, i), USER_VP + i, page.value,
               ImagePage(image, i * 4096), PERM_TEXT);
      i := i + 1;
    }
    TextNext(image, npages);
    FillTarget(mem0, role0, k.mem, k.role, kroot, c, TextView(image, npages), STACK_VP);
    ghost var mem1, role1 := k.mem, k.role;
    var stack := k.MapFresh(c, STACK_VP, ZEROS, PERM_DATA);
    if stack.None? {
      return None;
    }
    FillStep(mem0, role0, mem1, role1, k.mem, k.role, kroot, c, TextView(image, npages), STACK_VP, stack.value, ZEROS,
             PERM_DATA);
    FillView(mem0, role0, k.mem, k.role, kroot, c, ImageView(image));
    if IsImage(image) {
      ImageShown(image);
    }
  }

  lemma TextNext(image: seq<nat>, i: nat)
    ensures TextView(image, 0) == map[]
    ensures forall u :: u >= USER_VP + i ==> u !in TextView(image, i)
    ensures InUser(USER_VP + i) ==>
              TextView(image, i + 1) == TextView(image, i)[USER_VP + i := Leaf(ImagePage(image, i * 4096), PERM_TEXT)]
  {
    hide ImagePage;
  }
}
