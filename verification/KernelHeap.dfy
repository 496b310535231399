/**
 The kernel heap in memory (src/heap.rs): free blocks linked through their own first words, and a
 header in front of every allocation.  `Alloc` and `Dealloc` walk and rewire that list; their
 contracts say that they do to the list what HeapSpec says, and touch no live block.
 */
module KernelHeap {
  import opened Options
  import opened HeapSpec
  import opened HeapRuns
  import Bits

  /** The 64-bit words of the region, by address. */
  type Words = map<nat, nat>

  /** Exactly the words of the region are there. */
  ghost predicate Covers(mem: Words, whole: Block)
  {
    forall a: nat :: a in mem <==> whole.Has(a) && a % 8 == 0
  }

  function At(s: FreeList, end: nat, k: nat): nat { if k < |s| then s[k].start else end }

  /** Block `k` of a list carries its size and the address of the next. */
  predicate NodeOk(mem: Words, s: FreeList, end: nat, k: nat)
  {
    k < |s| ==>
      && s[k].start in mem && mem[s[k].start] == s[k].size
      && s[k].start + 8 in mem && mem[s[k].start + 8] == At(s, end, k + 1)
  }

  predicate Chain(mem: Words, s: FreeList, end: nat)
  {
    forall k: nat {:trigger NodeOk(mem, s, end, k)} :: k < |s| ==> NodeOk(mem, s, end, k)
  }

  /** The header in front of an allocation tells its block. */
  predicate HeaderOk(mem: Words, p: nat, b: Block)
  {
    p >= HEADER && p - 16 in mem && mem[p - 16] == b.start && p - 8 in mem && mem[p - 8] == b.size
  }

  predicate HeadersOk(mem: Words, live: Lives)
  {
    forall p :: p in live ==> HeaderOk(mem, p, live[p].block)
  }

  /** Nothing in the block was written. */
  predicate Untouched(mem: Words, mem': Words, b: Block)
  {
    forall a: nat :: b.Has(a) && a in mem ==> a in mem' && mem'[a] == mem[a]
  }

  predicate LiveUntouched(mem: Words, mem': Words, live: Lives)
  {
    forall p :: p in live ==> Untouched(mem, mem', live[p].block)
  }

  // --- the words of a block ---

  lemma WordsOf(mem: Words, whole: Block, b: Block)
    requires Covers(mem, whole) && b.Whole() && whole.start <= b.start && b.End() <= whole.End()
    ensures b.start in mem && b.start + 8 in mem
  {
    assert b.start % 8 == 0 && (b.start + 8) % 8 == 0;
    assert whole.Has(b.start) && whole.Has(b.start + 8);
  }

  /** A free block lies in the region. */
  lemma FreeInside(h: Heap, i: nat)
    requires h.Good() && i < |h.free|
    ensures h.whole.start <= h.free[i].start && h.free[i].End() <= h.whole.End() && h.free[i].Whole()
    ensures MIN_BLOCK <= h.free[i].size
    ensures forall p :: p in h.live ==> NoOverlap(h.live[p].block, h.free[i])
  {
    var b := h.free[i];
    assert b.Whole();
    forall a: nat | b.Has(a) ensures InFree(h.free, a) {
      assert h.free[i].Has(a);
    }
    assert b.Has(b.start);
    FreshBlock(h.whole, h.free, h.live, b, b.start);
  }

  lemma Blocks(h: Heap)
    requires h.Good()
    ensures forall i :: 0 <= i < |h.free| ==>
              h.whole.start <= h.free[i].start && h.free[i].End() <= h.whole.End() && h.free[i].Whole()
    ensures forall i, p :: 0 <= i < |h.free| && p in h.live ==> NoOverlap(h.live[p].block, h.free[i])
  {
    forall i | 0 <= i < |h.free|
      ensures h.whole.start <= h.free[i].start && h.free[i].End() <= h.whole.End() && h.free[i].Whole()
      ensures forall p :: p in h.live ==> NoOverlap(h.live[p].block, h.free[i])
    {
      FreeInside(h, i);
    }
  }

  // --- rewiring ---

  /** Replacing [i, j) by a chain that leads to what followed, with the block before it pointing there,
      gives a chain. */
  lemma SpliceChain(mem: Words, mem': Words, free: FreeList, i: nat, mid: FreeList, j: nat)
    requires i <= j <= |free| && Chain(mem, free, 0) && Chain(mem', mid, At(free, 0, j))
    requires forall k :: 0 <= k < i - 1 || j <= k < |free| ==> Kept(mem, mem', free[k])
    requires i > 0 ==>
               free[i - 1].start in mem' && mem'[free[i - 1].start] == free[i - 1].size &&
               free[i - 1].start + 8 in mem' && mem'[free[i - 1].start + 8] == At(mid, At(free, 0, j), 0)
    ensures Chain(mem', Splice(free, i, mid, j), 0)
    ensures At(Splice(free, i, mid, j), 0, 0) == if i > 0 then At(free, 0, 0) else At(mid, At(free, 0, j), 0)
  {
    var r := Splice(free, i, mid, j);
    var n := |mid|;
    forall k: nat | k < |r| ensures NodeOk(mem', r, 0, k) {
      if k + 1 < i {
        assert NodeOk(mem, free, 0, k) && Kept(mem, mem', free[k]);
        assert r[k] == free[k] && r[k + 1] == free[k + 1];
      } else if k < i {
        assert r[k] == free[k] && At(r, 0, k + 1) == At(mid, At(free, 0, j), 0);
      } else if k < i + n {
        assert NodeOk(mem', mid, At(free, 0, j), k - i);
        assert r[k] == mid[k - i] && At(r, 0, k + 1) == At(mid, At(free, 0, j), k - i + 1);
      } else {
        var x := k - i - n + j;
        assert NodeOk(mem, free, 0, x) && Kept(mem, mem', free[x]);
        assert r[k] == free[x] && At(r, 0, k + 1) == At(free, 0, x + 1);
      }
    }
  }

  /** The link words of a free block were not written. */
  predicate Kept(mem: Words, mem': Words, b: Block)
  {
    b.start in mem && b.start + 8 in mem ==>
      b.start in mem' && b.start + 8 in mem' && mem'[b.start] == mem[b.start] && mem'[b.start + 8] == mem[b.start + 8]
  }

  /** Writing a two-word record: a free block's size and link, or an allocation's header. */
  function Node(mem: Words, a: nat, x: nat, y: nat): Words { mem[a := x][a + 8 := y] }

  /** Writing only the link of a free block. */
  function Link(mem: Words, a: nat, next: nat): Words { mem[a + 8 := next] }

  /** Writes that put the chain `mid` in place of [i, j), all of them in `zone` but for the link before it. */
  predicate Rewrote(mem: Words, mem': Words, free: FreeList, i: nat, mid: FreeList, j: nat, zone: Block)
    requires i <= j <= |free|
  {
    && mem'.Keys == mem.Keys
    && (forall a: nat :: a in mem && !zone.Has(a) && (i == 0 || a != free[i - 1].start + 8) ==> mem'[a] == mem[a])
    && Chain(mem', mid, At(free, 0, j))
    && (i > 0 ==> free[i - 1].start + 8 in mem' && mem'[free[i - 1].start + 8] == At(mid, At(free, 0, j), 0))
  }

  lemma RewroteChain(mem: Words, mem': Words, free: FreeList, i: nat, mid: FreeList, j: nat, zone: Block)
    requires i <= j <= |free| && Canonical(free) && Chain(mem, free, 0) && Rewrote(mem, mem', free, i, mid, j, zone)
    requires forall k :: 0 <= k < i ==> free[k].End() <= zone.start
    requires forall k :: j <= k < |free| ==> zone.End() <= free[k].start
    ensures
      var f := Splice(free, i, mid, j);
      Chain(mem', f, 0) && At(f, 0, 0) == if i > 0 then At(free, 0, 0) else At(mid, At(free, 0, j), 0)
  {
    forall k | 0 <= k < i - 1 || j <= k < |free| ensures Kept(mem, mem', free[k]) {
      assert free[k].Whole();
      if i > 0 {
        assert if k < i then free[k].End() < free[i - 1].start else free[i - 1].End() < free[k].start;
      }
    }
    if i > 0 {
      assert NodeOk(mem, free, 0, i - 1);
      assert free[i - 1].Whole();
    }
    hide Canonical;
    SpliceChain(mem, mem', free, i, mid, j);
  }

  lemma RewroteMisses(mem: Words, mem': Words, free: FreeList, i: nat, mid: FreeList, j: nat, zone: Block, live: Lives)
    requires i <= j <= |free| && Rewrote(mem, mem', free, i, mid, j, zone)
    requires forall p :: p in live ==> NoOverlap(live[p].block, zone)
    requires i > 0 ==> MIN_BLOCK <= free[i - 1].size && forall p :: p in live ==> NoOverlap(live[p].block, free[i - 1])
    ensures LiveUntouched(mem, mem', live)
  {
    hide Chain;
    forall p, a: nat | p in live && live[p].block.Has(a) && a in mem ensures a in mem' && mem'[a] == mem[a] {
      assert NoOverlap(live[p].block, zone);
      assert i > 0 ==> NoOverlap(live[p].block, free[i - 1]);
    }
  }

  lemma HeadersKept(mem: Words, mem': Words, whole: Block, live: Lives)
    requires HeadersOk(mem, live) && LivesOk(whole, live) && LiveUntouched(mem, mem', live)
    ensures HeadersOk(mem', live)
  {
    forall p | p in live ensures HeaderOk(mem', p, live[p].block) {
      assert HeaderOk(mem, p, live[p].block) && LiveOk(whole, p, live[p]) && Untouched(mem, mem', live[p].block);
    }
  }

  /** The words tell the state: the list is linked from `head`, and every live block has its header. */
  ghost predicate InMemory(h: Heap, mem: Words, head: nat)
  {
    Covers(mem, h.whole) && head == At(h.free, 0, 0) && Chain(mem, h.free, 0) && HeadersOk(mem, h.live)
  }

  lemma LiveInside(whole: Block, live: Lives, p: nat)
    requires LivesOk(whole, live) && p in live
    ensures whole.start <= live[p].block.start && live[p].block.End() <= whole.End()
    ensures live[p].block.start + HEADER <= p && p < p + live[p].need <= live[p].block.End()
  {
    assert LiveOk(whole, p, live[p]);
  }

  /** A write that misses the first two words of every free block leaves the list alone. */
  lemma WriteMissesChain(mem: Words, free: FreeList, a: nat, v: nat)
    requires Chain(mem, free, 0) && forall k :: 0 <= k < |free| ==> a != free[k].start && a != free[k].start + 8
    ensures Chain(mem[a := v], free, 0)
  {
    var mem' := mem[a := v];
    forall k: nat | k < |free| ensures NodeOk(mem', free, 0, k) {
      assert NodeOk(mem, free, 0, k);
    }
  }

  lemma WriteMissesHeaders(mem: Words, live: Lives, a: nat, v: nat)
    requires HeadersOk(mem, live) && forall p :: p in live ==> a != p - 16 && a != p - 8
    ensures HeadersOk(mem[a := v], live)
  {
  }

  lemma StoreKeeps(h: Heap, mem: Words, head: nat, p: nat, a: nat, v: nat)
    requires h.Good() && InMemory(h, mem, head) && p in h.live && p <= a < p + h.live[p].need && a % 8 == 0
    ensures InMemory(h, mem[a := v], head)
  {
    hide Chain, HeadersOk, Canonical, Divides, LiveOk, Block.Whole;
    Blocks(h);
    LiveInside(h.whole, h.live, p);
    forall q | q in h.live ensures a != q - 16 && a != q - 8 {
      LiveInside(h.whole, h.live, q);
      assert q != p ==> NoOverlap(h.live[p].block, h.live[q].block);
    }
    forall k | 0 <= k < |h.free| ensures a != h.free[k].start && a != h.free[k].start + 8 {
      FreeInside(h, k);
      assert NoOverlap(h.live[p].block, h.free[k]);
    }
    assert h.whole.Has(a);
    hide LivesOk;
    WriteMissesChain(mem, h.free, a, v);
    WriteMissesHeaders(mem, h.live, a, v);
  }

  // --- walking ---

  /** What a walk reads at block `i`. */
  lemma Visit(h: Heap, mem: Words, head: nat, i: nat)
    requires h.Good() && 0 < h.whole.start && InMemory(h, mem, head) && i < |h.free|
    ensures 0 < h.free[i].start && h.free[i].start in mem && mem[h.free[i].start] == h.free[i].size
    ensures h.free[i].start + 8 in mem && mem[h.free[i].start + 8] == At(h.free, 0, i + 1)
  {
    FreeInside(h, i);
    assert NodeOk(mem, h.free, 0, i);
  }

  lemma Entering(h: Heap, mem: Words, head: nat)
    requires InMemory(h, mem, head)
    ensures head == At(h.free, 0, 0) && LiveUntouched(mem, mem, h.live)
  {
  }

  lemma FitsIs(b: Block, need: nat, al: nat)
    requires al > 0
    ensures Fits(b, need, al) <==> AlignUp(b.start + HEADER, al) + need <= b.End()
    ensures UserStart(b, al) == AlignUp(b.start + HEADER, al)
  {
  }

  lemma FirstFitIs(free: FreeList, need: nat, al: nat, i: nat)
    requires al > 0 && i <= |free| && (forall j :: 0 <= j < i ==> !Fits(free[j], need, al))
    requires i < |free| ==> Fits(free[i], need, al)
    ensures FirstFit(free, need, al) == i && (i == |free| ==> Allocated(free, need, al) == None)
  {
    hide Fits;
  }

  // --- allocating ---

  /** What the writes of `alloc_inner` amount to when it carves block `i`. */
  predicate Carved(mem: Words, mem': Words, free: FreeList, i: nat, u: nat, need: nat)
    requires i < |free| && free[i].start + HEADER <= u && u + need <= free[i].End()
  {
    && Rewrote(mem, mem', free, i, Remains(free[i], u, need), i + 1, free[i])
    && HeaderOk(mem', u, Taken(free[i], u, need))
  }

  /** The facts about block `i` that the writes rely on. */
  ghost predicate Carvable(mem: Words, free: FreeList, i: nat, u: nat, need: nat)
  {
    && i < |free| && free[i].Whole() && 0 < free[i].start
    && u % ALIGN == 0 && need % ALIGN == 0 && 0 < need && free[i].start + HEADER <= u && u + need <= free[i].End()
    && free[i].start in mem && mem[free[i].start] == free[i].size
    && free[i].start + 8 in mem && mem[free[i].start + 8] == At(free, 0, i + 1)
    && (forall a: nat :: free[i].Has(a) && a % 8 == 0 ==> a in mem)
    && (i > 0 ==>
          && 0 < free[i - 1].start && MIN_BLOCK <= free[i - 1].size && free[i - 1].End() < free[i].start
          && free[i - 1].start + 8 in mem)
  }

  /** Where the list goes on after what is left of a block. */
  function Entry(b: Block, t: Block, next: nat): nat
  {
    if b.start < t.start then b.start else if t.End() < b.End() then t.End() else next
  }

  /** The writes of `alloc_inner`, in order: back remainder, front remainder, the link before, the header. */
  function Rewired(mem: Words, prev: nat, b: Block, t: Block, u: nat, next: nat): Words
    requires HEADER <= u && b.start <= t.start && t.End() <= b.End()
  {
    var m1 := if t.End() < b.End() then Node(mem, t.End(), b.End() - t.End(), next) else mem;
    var r1 := if t.End() < b.End() then t.End() else next;
    var m2 := if b.start < t.start then Node(m1, b.start, t.start - b.start, r1) else m1;
    var m3 := if prev == 0 then m2 else Link(m2, prev, Entry(b, t, next));
    Node(m3, u - 16, t.start, t.size)
  }

  /** What is left of a block around the part taken. */
  function Around(b: Block, t: Block): FreeList
    requires b.start <= t.start && t.End() <= b.End()
  {
    (if b.start < t.start then [Block(b.start, t.start - b.start)] else []) +
    (if t.End() < b.End() then [Block(t.End(), b.End() - t.End())] else [])
  }

  /** The written words are all different, and all but the link before lie in the block. */
  predicate Spots(prev: nat, b: Block, t: Block, u: nat)
  {
    && 0 < b.start <= t.start && t.start + HEADER <= u < t.End() <= b.End()
    && (b.start < t.start ==> b.start + MIN_BLOCK <= t.start)
    && (t.End() < b.End() ==> t.End() + MIN_BLOCK <= b.End())
    && (prev == 0 || prev + MIN_BLOCK < b.start)
  }

  lemma RewiredChain(mem: Words, prev: nat, b: Block, t: Block, u: nat, next: nat)
    requires Spots(prev, b, t, u)
    ensures Chain(Rewired(mem, prev, b, t, u, next), Around(b, t), next)
  {
    var mem' := Rewired(mem, prev, b, t, u, next);
    forall k: nat | k < |Around(b, t)| ensures NodeOk(mem', Around(b, t), next, k) {
    }
  }

  lemma RewiredFrame(mem: Words, prev: nat, b: Block, t: Block, u: nat, next: nat)
    requires Spots(prev, b, t, u)
    requires b.start in mem && b.start + 8 in mem && u - 16 in mem && u - 8 in mem
    requires t.End() < b.End() ==> t.End() in mem && t.End() + 8 in mem
    requires prev != 0 ==> prev + 8 in mem
    ensures
      var mem' := Rewired(mem, prev, b, t, u, next);
      && mem'.Keys == mem.Keys
      && (forall a: nat :: a in mem && !b.Has(a) && (prev == 0 || a != prev + 8) ==> mem'[a] == mem[a])
      && (prev != 0 ==> mem'[prev + 8] == Entry(b, t, next))
      && HeaderOk(mem', u, t)
  {
  }

  lemma CarvableReads(mem: Words, free: FreeList, i: nat, u: nat, need: nat)
    requires Carvable(mem, free, i, u, need)
    ensures i < |free| && free[i].start + HEADER <= u && u + need <= free[i].End()
    ensures free[i].start in mem && mem[free[i].start] == free[i].size
    ensures free[i].start + 8 in mem && mem[free[i].start + 8] == At(free, 0, i + 1)
    ensures i > 0 ==> 0 < free[i - 1].start
  {
  }

  lemma Eights(u: nat)
    requires u % ALIGN == 0 && HEADER <= u
    ensures (u - 16) % 8 == 0 && (u - 8) % 8 == 0
  {
  }

  lemma CarvableSpots(mem: Words, free: FreeList, i: nat, u: nat, need: nat)
    requires Carvable(mem, free, i, u, need)
    ensures
      var b, t := free[i], Taken(free[i], u, need);
      && Spots(if i == 0 then 0 else free[i - 1].start, b, t, u)
      && u - 16 in mem && u - 8 in mem && (t.End() < b.End() ==> t.End() in mem && t.End() + 8 in mem)
      && Around(b, t) == Remains(b, u, need)
  {
    var b, t := free[i], Taken(free[i], u, need);
    CarveBlocks(b, u, need);
    Eights(u);
    Eights(t.End() + 16) by {
      Multiples(t.start, t.size);
      Multiples(16, t.End());
    }
    hide *;
    assert b.Has(u - 16) && b.Has(u - 8);
    assert t.End() < b.End() ==> b.Has(t.End()) && b.Has(t.End() + 8);
  }

  lemma RewiredOk(mem: Words, free: FreeList, i: nat, u: nat, need: nat)
    requires Carvable(mem, free, i, u, need)
    ensures
      var b, t, next := free[i], Taken(free[i], u, need), At(free, 0, i + 1);
      && b.start <= t.start && t.End() <= b.End()
      && Carved(mem, Rewired(mem, if i == 0 then 0 else free[i - 1].start, b, t, u, next), free, i, u, need)
      && Entry(b, t, next) == At(Remains(b, u, need), next, 0)
  {
    var b, t, next := free[i], Taken(free[i], u, need), At(free, 0, i + 1);
    var prev := if i == 0 then 0 else free[i - 1].start;
    CarvableSpots(mem, free, i, u, need);
    RewiredChain(mem, prev, b, t, u, next);
    RewiredFrame(mem, prev, b, t, u, next);
    hide Rewired, Remains, Taken, Chain, HeaderOk;
  }

  lemma CarvedIn(h: Heap, mem: Words, head: nat, need: nat, al: nat, i: nat, u: nat)
    requires h.Good() && 0 < h.whole.start && InMemory(h, mem, head) && Request(need, al)
    requires i == FirstFit(h.free, need, al) < |h.free| && u == UserStart(h.free[i], al)
    ensures Carvable(mem, h.free, i, u, need)
  {
    hide Chain, HeadersOk, HeapRuns.Heap.Good, FirstFit, AlignUp;
    assert al > 0;
    FreeInside(h, i);
    NodeFacts(h, mem, head, i);
    AlignUpLeast(h.free[i].start + HEADER, al, 0);
    AlignedTo16(u, al);
    hide NoOverlap;
    if i > 0 {
      NodeFacts(h, mem, head, i - 1);
    }
  }

  lemma CarvedChain(mem: Words, mem': Words, free: FreeList, i: nat, u: nat, need: nat)
    requires i < |free| && free[i].start + HEADER <= u && u + need <= free[i].End()
    requires Canonical(free) && Chain(mem, free, 0) && Carved(mem, mem', free, i, u, need)
    ensures
      var f := Splice(free, i, Remains(free[i], u, need), i + 1);
      && Chain(mem', f, 0)
      && At(f, 0, 0) == if i > 0 then At(free, 0, 0) else At(Remains(free[i], u, need), At(free, 0, i + 1), 0)
  {
    hide Remains, Taken, Rewrote;
    RewroteChain(mem, mem', free, i, Remains(free[i], u, need), i + 1, free[i]);
  }

  lemma CarvedMissesLive(h: Heap, mem: Words, mem': Words, i: nat, u: nat, need: nat)
    requires i < |h.free| && h.free[i].start + HEADER <= u && u + need <= h.free[i].End()
    requires h.Good() && Carved(mem, mem', h.free, i, u, need)
    ensures LiveUntouched(mem, mem', h.live)
  {
    Blocks(h);
    hide Remains, Taken, Rewrote;
    RewroteMisses(mem, mem', h.free, i, Remains(h.free[i], u, need), i + 1, h.free[i], h.live);
  }

  lemma AllocatedIs(free: FreeList, need: nat, al: nat, i: nat, u: nat)
    requires al > 0 && i == FirstFit(free, need, al) < |free| && u == UserStart(free[i], al)
    requires free[i].start + HEADER <= u && u + need <= free[i].End()
    ensures Allocated(free, need, al) ==
        Some((Splice(free, i, Remains(free[i], u, need), i + 1), Taken(free[i], u, need), u))
  {
    hide AlignUp, Splice, Remains, Taken;
  }

  lemma CarvedTight(h: Heap, need: nat, al: nat, i: nat, u: nat)
    requires h.Good() && Request(need, al) && i == FirstFit(h.free, need, al) < |h.free|
    requires u == UserStart(h.free[i], al)
    ensures h.free[i].start + HEADER <= u && u + need <= h.free[i].End() && Tight(Taken(h.free[i], u, need), u, need)
  {
    hide Canonical, InFree, RoomBefore, RoomAfter;
    AllocatedTight(h.free, need, al);
  }

  lemma CarvedParts(mem: Words, mem': Words, whole: Block, free: FreeList, i: nat, u: nat, need: nat)
    requires Covers(mem, whole)
    requires i < |free| && free[i].start + HEADER <= u && u + need <= free[i].End()
    requires Carved(mem, mem', free, i, u, need)
    ensures Covers(mem', whole) && HeaderOk(mem', u, Taken(free[i], u, need))
  {
    hide Chain, HeaderOk, Taken, Remains;
    SameKeys(mem, mem', whole);
  }

  lemma SameKeys(mem: Words, mem': Words, whole: Block)
    requires Covers(mem, whole) && mem'.Keys == mem.Keys
    ensures Covers(mem', whole)
  {
    assert forall a: nat :: a in mem' <==> a in mem'.Keys;
  }

  lemma AddHeader(mem: Words, live: Lives, u: nat, l: Live)
    requires HeadersOk(mem, live) && HeaderOk(mem, u, l.block)
    ensures HeadersOk(mem, live[u := l])
  {
  }

  lemma AllocKeeps(h: Heap, mem: Words, head: nat, mem': Words, need: nat, al: nat, i: nat, u: nat)
    requires h.Good() && InMemory(h, mem, head) && Request(need, al)
    requires i == FirstFit(h.free, need, al) < |h.free| && u == UserStart(h.free[i], al)
    requires h.free[i].start + HEADER <= u && u + need <= h.free[i].End() && Carved(mem, mem', h.free, i, u, need)
    ensures
      var f, b := Splice(h.free, i, Remains(h.free[i], u, need), i + 1), Taken(h.free[i], u, need);
      && Allocated(h.free, need, al) == Some((f, b, u))
      && Heap(h.whole, f, h.live[u := Live(b, need, al)]).Good()
      && InMemory(Heap(h.whole, f, h.live[u := Live(b, need, al)]), mem', At(f, 0, 0))
      && At(f, 0, 0) == (if i > 0 then head else At(Remains(h.free[i], u, need), At(h.free, 0, i + 1), 0))
      && Sum(f) + b.size == Sum(h.free)
      && LiveUntouched(mem, mem', h.live)
  {
    var f, b := Splice(h.free, i, Remains(h.free[i], u, need), i + 1), Taken(h.free[i], u, need);
    hide AlignUp, UserStart, FirstFit, Chain, Canonical, Covers, HeadersOk, HeaderOk, LivesOk, Divides, LiveUntouched,
         Allocated, Remains, Taken, Splice, Sum, Carved;
    AllocatedIs(h.free, need, al, i, u);
    AllocGood(h, need, al);
    AllocatedOk(h.free, need, al);
    CarvedChain(mem, mem', h.free, i, u, need);
    CarvedMissesLive(h, mem, mem', i, u, need);
    CarvedParts(mem, mem', h.whole, h.free, i, u, need);
    HeadersKept(mem, mem', h.whole, h.live);
    AddHeader(mem', h.live, u, Live(b, need, al));
  }

  // --- freeing ---

  /** What freeing `b` at position `k` relies on. */
  predicate Returnable(mem: Words, free: FreeList, k: nat, b: Block)
  {
    && k <= |free| && 0 < b.start && MIN_BLOCK <= b.size && b.start in mem && b.start + 8 in mem
    && (k < |free| ==> MIN_BLOCK <= free[k].size && b.End() <= free[k].start)
    && (k > 0 ==>
          && 0 < free[k - 1].start && MIN_BLOCK <= free[k - 1].size && free[k - 1].End() <= b.start
          && free[k - 1].start in mem && free[k - 1].start + 8 in mem)
    && (k > 1 ==>
          && MIN_BLOCK <= free[k - 2].size && free[k - 2].End() <= free[k - 1].start
          && free[k - 2].start + 8 in mem && mem[free[k - 2].start + 8] == free[k - 1].start)
  }

  /** The writes of `dealloc_inner`, in order: the block itself, merged forward, then merged backward or linked in. */
  function Returned(mem: Words, free: FreeList, k: nat, b: Block): Words
    requires k <= |free|
  {
    var ahead := Forward(free, k, b);
    var size := if ahead then b.size + free[k].size else b.size;
    var next := if ahead then At(free, 0, k + 1) else At(free, 0, k);
    var m1 := Node(mem, b.start, b.size, At(free, 0, k));
    var m2 := if ahead then Node(m1, b.start, size, next) else m1;
    if k == 0 then m2
    else if Backward(free, k, b) then Node(m2, free[k - 1].start, free[k - 1].size + size, next)
    else Link(m2, free[k - 1].start, b.start)
  }

  /** Where the new block goes: it replaces [i, j). */
  function From(free: FreeList, k: nat, b: Block): nat { if Backward(free, k, b) then k - 1 else k }
  function Upto(free: FreeList, k: nat, b: Block): nat { if Forward(free, k, b) then k + 1 else k }

  lemma ReturnedWrites(mem: Words, free: FreeList, k: nat, b: Block)
    requires Returnable(mem, free, k, b)
    ensures
      var mem', m, end := Returned(mem, free, k, b), Merged(free, k, b), At(free, 0, Upto(free, k, b));
      && mem'.Keys == mem.Keys
      && m.start in mem && mem'[m.start] == m.size && m.start + 8 in mem && mem'[m.start + 8] == end
      && (k > 0 && !Backward(free, k, b) ==> mem'[free[k - 1].start + 8] == b.start)
  {
  }

  lemma ReturnedFrame(mem: Words, free: FreeList, k: nat, b: Block, a: nat)
    requires Returnable(mem, free, k, b) && a in mem && !Merged(free, k, b).Has(a)
    requires k == 0 || Backward(free, k, b) || a != free[k - 1].start + 8
    ensures a in Returned(mem, free, k, b) && Returned(mem, free, k, b)[a] == mem[a]
  {
  }

  lemma ReturnedOk(mem: Words, free: FreeList, k: nat, b: Block)
    requires Returnable(mem, free, k, b)
    ensures
      var i, j, m := From(free, k, b), Upto(free, k, b), Merged(free, k, b);
      i <= j <= |free| && Rewrote(mem, Returned(mem, free, k, b), free, i, [m], j, m)
  {
    var mem', i, j, m := Returned(mem, free, k, b), From(free, k, b), Upto(free, k, b), Merged(free, k, b);
    ReturnedWrites(mem, free, k, b);
    forall a: nat | a in mem && !m.Has(a) && (i == 0 || a != free[i - 1].start + 8) ensures mem'[a] == mem[a] {
      ReturnedFrame(mem, free, k, b, a);
    }
    assert NodeOk(mem', [m], At(free, 0, j), 0);
    if i < k && i > 0 {
      assert m.start == free[k - 1].start;
      ReturnedFrame(mem, free, k, b, free[i - 1].start + 8);
    }
    hide Returned;
  }

  lemma BlockOf(h: Heap, mem: Words, head: nat, p: nat)
    requires h.Good() && InMemory(h, mem, head) && p in h.live
    ensures Apart(h.free, h.live[p].block) && h.live[p].block.Whole() && HeaderOk(mem, p, h.live[p].block)
    ensures h.whole.start <= h.live[p].block.start && h.live[p].block.start in mem && h.live[p].block.start + 8 in mem
    ensures Canonical(h.free) && MIN_BLOCK <= h.live[p].block.size
  {
    assert LiveOk(h.whole, p, h.live[p]);
    WordsOf(mem, h.whole, h.live[p].block);
  }

  lemma NodeFacts(h: Heap, mem: Words, head: nat, x: nat)
    requires h.Good() && 0 < h.whole.start && InMemory(h, mem, head) && x < |h.free|
    ensures 0 < h.free[x].start && MIN_BLOCK <= h.free[x].size && h.free[x].start in mem && h.free[x].start + 8 in mem
    ensures mem[h.free[x].start] == h.free[x].size && mem[h.free[x].start + 8] == At(h.free, 0, x + 1)
    ensures x + 1 < |h.free| ==> h.free[x].End() < h.free[x + 1].start
  {
    FreeInside(h, x);
    Visit(h, mem, head, x);
  }

  lemma CanReturn(h: Heap, mem: Words, head: nat, p: nat)
    requires h.Good() && 0 < h.whole.start && InMemory(h, mem, head) && p in h.live
    ensures Returnable(mem, h.free, Position(h.free, h.live[p].block.start), h.live[p].block)
  {
    hide InMemory, HeapRuns.Heap.Good, Canonical, Apart, Merged, Block.Whole, Position, HeaderOk;
    var b := h.live[p].block;
    var k := Position(h.free, b.start);
    BlockOf(h, mem, head, p);
    Neighbours(h.free, b, k);
    if k < |h.free| {
      NodeFacts(h, mem, head, k);
    }
    assert k < |h.free| ==> MIN_BLOCK <= h.free[k].size && b.End() <= h.free[k].start;
    if k > 0 {
      NodeFacts(h, mem, head, k - 1);
      if k > 1 {
        NodeFacts(h, mem, head, k - 2);
      }
    }
  }

  lemma Within(h: Heap, p: nat)
    requires h.Good() && p in h.live
    ensures Apart(h.free, h.live[p].block) && h.live[p].block.Whole() && MIN_BLOCK <= h.live[p].block.size
  {
    assert LiveOk(h.whole, p, h.live[p]);
  }

  /** The region given back lies between its neighbours and away from the other live blocks. */
  lemma MergedClear(h: Heap, p: nat, k: nat)
    requires h.Good() && p in h.live && k == Position(h.free, h.live[p].block.start)
    ensures
      var b := h.live[p].block;
      var i, j, m := From(h.free, k, b), Upto(h.free, k, b), Merged(h.free, k, b);
      && (forall x :: 0 <= x < i ==> h.free[x].End() <= m.start)
      && (forall x :: j <= x < |h.free| ==> m.End() <= h.free[x].start)
      && (forall q :: q in h.live && q != p ==> NoOverlap(h.live[q].block, m))
  {
    var b := h.live[p].block;
    Within(h, p);
    hide InFree, Divides, Apart, Position;
    Neighbours(h.free, b, k);
    Blocks(h);
    forall q | q in h.live && q != p ensures NoOverlap(h.live[q].block, Merged(h.free, k, b)) {
      Within(h, q);
      assert NoOverlap(h.live[q].block, b);
      assert k > 0 ==> NoOverlap(h.live[q].block, h.free[k - 1]);
      assert k < |h.free| ==> NoOverlap(h.live[q].block, h.free[k]);
    }
  }

  lemma LiveWithout(mem: Words, whole: Block, live: Lives, p: nat)
    requires LivesOk(whole, live) && HeadersOk(mem, live)
    ensures LivesOk(whole, live - {p}) && HeadersOk(mem, live - {p})
  {
  }

  lemma ReturnedKeeps(h: Heap, mem: Words, head: nat, p: nat, k: nat)
    requires h.Good() && InMemory(h, mem, head) && p in h.live && k == Position(h.free, h.live[p].block.start)
    requires Returnable(mem, h.free, k, h.live[p].block)
    ensures
      var b := h.live[p].block;
      var i, j, m := From(h.free, k, b), Upto(h.free, k, b), Merged(h.free, k, b);
      var mem', f := Returned(mem, h.free, k, b), Splice(h.free, i, [m], j);
      && Covers(mem', h.whole) && Chain(mem', f, 0) && HeadersOk(mem', h.live - {p})
      && At(f, 0, 0) == (if k == 0 then b.start else head) && LiveUntouched(mem, mem', h.live - {p})
  {
    var b := h.live[p].block;
    var i, j, m := From(h.free, k, b), Upto(h.free, k, b), Merged(h.free, k, b);
    var mem', live' := Returned(mem, h.free, k, b), h.live - {p};
    assert i == k == 0 ==> m.start == b.start;
    hide Returned, Rewrote, Returnable, InFree, Divides, Merged, Position, LiveUntouched, Canonical, Chain;
    LiveWithout(mem, h.whole, h.live, p);
    hide LivesOk, HeadersOk;
    ReturnedOk(mem, h.free, k, b);
    ReturnedWrites(mem, h.free, k, b);
    SameKeys(mem, mem', h.whole);
    hide Covers;
    MergedClear(h, p, k);
    Blocks(h);
    RewroteChain(mem, mem', h.free, i, [m], j, m);
    RewroteMisses(mem, mem', h.free, i, [m], j, m, live');
    HeadersKept(mem, mem', h.whole, live');
  }

  lemma DeallocKeeps(h: Heap, mem: Words, head: nat, p: nat)
    requires h.Good() && 0 < h.whole.start && InMemory(h, mem, head) && p in h.live
    ensures
      var b, k := h.live[p].block, Position(h.free, h.live[p].block.start);
      var mem', f := Returned(mem, h.free, k, b), Freed(h.free, b);
      && Heap(h.whole, f, h.live - {p}).Good()
      && InMemory(Heap(h.whole, f, h.live - {p}), mem', if k == 0 then b.start else head)
      && Sum(f) == Sum(h.free) + b.size
      && LiveUntouched(mem, mem', h.live - {p})
  {
    hide Returned, Rewrote, Returnable, InFree, Divides, Apart, Splice, Merged, Chain, Canonical, LivesOk, HeadersOk,
         HeaderOk, Covers, LiveUntouched, Sum;
    var b, k := h.live[p].block, Position(h.free, h.live[p].block.start);
    var i, j, m := From(h.free, k, b), Upto(h.free, k, b), Merged(h.free, k, b);
    assert Freed(h.free, b) == Splice(h.free, i, [m], j);
    hide Freed, Position, From, Upto;
    CanReturn(h, mem, head, p);
    BlockOf(h, mem, head, p);
    DeallocGood(h, p);
    FreedOk(h.free, b);
    ReturnedKeeps(h, mem, head, p, k);
  }

  lemma PositionIs(free: FreeList, start: nat, k: nat)
    requires k <= |free| && (forall i :: 0 <= i < k ==> free[i].start < start)
    requires k < |free| ==> start <= free[k].start
    ensures Position(free, start) == k
  {
  }

  lemma NodeRead(mem: Words, a: nat, x: nat, y: nat)
    requires a in mem && a + 8 in mem
    ensures Node(mem, a, x, y).Keys == mem.Keys && Node(mem, a, x, y)[a] == x && Node(mem, a, x, y)[a + 8] == y
    ensures forall c: nat :: c in mem && c != a && c != a + 8 ==>
        c in Node(mem, a, x, y) && Node(mem, a, x, y)[c] == mem[c]
  {
  }

  // --- the allocator ---

  /** What alloc returns and how many bytes it takes; null changes nothing. */
  predicate Answers(free: FreeList, size: nat, k: nat, p: nat, mem: Words, mem': Words, bytes: int, bytes': int)
  {
    match Allocated(free, Need(size), Al(k))
    case None => p == 0 && mem' == mem && bytes' == bytes
    case Some((f, b, u)) => p == u && bytes' == bytes - b.size
  }

  class KernelHeap {
    var mem: Words
    /** Address of the first free block, 0 for null. */
    var head: nat
    var freeBytes: nat

    ghost const whole: Block
    ghost var free: FreeList
    ghost var live: Lives

    ghost function State(): Heap
      reads this
    {
      Heap(whole, free, live)
    }

    ghost predicate Valid()
      reads this
    {
      && 0 < whole.start && whole.End() < 0x1_0000_0000_0000
      && State().Good()
      && InMemory(State(), mem, head)
      && freeBytes == Sum(free)
    }

    /** init: the whole region as one free block. */
    constructor (start: nat, size: nat, words: Words)
      requires 0 < start && start + size < 0x1_0000_0000_0000 && Block(start, size).Whole()
      requires Covers(words, Block(start, size))
      ensures Valid() && State() == Start(Block(start, size)) && freeBytes == size
    {
      var b := Block(start, size);
      WordsOf(words, b, b);
      StartGood(b);
      mem := Node(words, start, size, 0);
      head := start;
      freeBytes := size;
      whole := b;
      free := [b];
      live := map[];
      new;
      assert NodeOk(mem, free, 0, 0);
      assert Sum([b]) == size;
    }

    /** alloc_inner: first fit over the linked list. */
    method Alloc(size: nat, k: nat) returns (p: nat)
      requires Valid() && Layout(size, k)
      modifies this
      ensures Valid() && LiveUntouched(old(mem), mem, old(live))
      ensures State() == Do(old(State()), Op.Alloc(size, k))
      ensures Answers(old(free), size, k, p, old(mem), mem, old(freeBytes), freeBytes)
      ensures p != 0 ==> p in live && Tight(live[p].block, p, Need(size))
    {
      hide Need, Al, Layout, Request, AlignUp, Fits, FirstFit, InMemory, HeapRuns.Heap.Good, LiveUntouched, Splice,
           Remains, Taken, Allocated, Sum;
      var need, al := Need(size), Al(k);
      Requested(size, k);
      Entering(State(), mem, head);
      var prev, cur := 0, head;
      ghost var i := 0;
      while cur != 0
        invariant unchanged(this)
        invariant i <= |free| && cur == At(free, 0, i) && prev == (if i == 0 then 0 else free[i - 1].start)
        invariant forall j :: 0 <= j < i ==> !Fits(free[j], need, al)
        decreases |free| - i
      {
        Visit(State(), mem, head, i);
        FitsIs(free[i], need, al);
        var u := AlignUp(cur + HEADER, al);
        if u + need <= cur + mem[cur] {
          FirstFitIs(free, need, al, i);
          ghost var _ := Carve(prev, cur, u, need, al, i);
          return u;
        }
        prev, cur := cur, mem[cur + 8];
        i := i + 1;
      }
      if i < |free| {
        Visit(State(), mem, head, i);
      }
      FirstFitIs(free, need, al, i);
      return 0;
    }

    /** The rest of alloc_inner, once block `cur` fits: rewire the list around the payload at `u`. */
    method Carve(prev: nat, cur: nat, u: nat, need: nat, ghost al: nat, ghost i: nat) returns (ghost t: Block)
      requires Valid() && Request(need, al) && i == FirstFit(free, need, al) < |free| && u == UserStart(free[i], al)
      requires cur == free[i].start && prev == (if i == 0 then 0 else free[i - 1].start)
      modifies this
      ensures Valid() && LiveUntouched(old(mem), mem, old(live))
      ensures Allocated(old(free), need, al) == Some((free, t, u)) && Tight(t, u, need)
      ensures live == old(live)[u := Live(t, need, al)] && freeBytes == old(freeBytes) - t.size
    {
      hide AlignUp, UserStart, Request, InMemory, HeapRuns.Heap.Good, LiveUntouched, Carved, Carvable, Splice, Remains,
           Allocated, FirstFit, Sum;
      CarvedTight(State(), need, al, i, u);
      CarvedIn(State(), mem, head, need, al, i, u);
      CarvableReads(mem, free, i, u, need);
      RewiredOk(mem, free, i, u, need);
      t := Taken(free[i], u, need);
      ghost var b, after := free[i], At(free, 0, i + 1);
      ghost var mem' := Rewired(mem, prev, b, t, u, after);
      AllocKeeps(State(), mem, head, mem', need, al, i, u);
      ghost var f := Splice(free, i, Remains(b, u, need), i + 1);
      hide At;
      var end: nat, next: nat := cur + mem[cur], mem[cur + 8];
      var frontGap: nat, backGap: nat := u - HEADER - cur, end - (u + need);
      var start: nat := if frontGap >= MIN_BLOCK then cur + frontGap else cur;
      var stop: nat := if backGap >= MIN_BLOCK then u + need else end;
      assert start == t.start && stop == t.End();
      assert (backGap >= MIN_BLOCK <==> t.End() < b.End()) && (frontGap >= MIN_BLOCK <==> b.start < t.start);
      hide Taken, Node, Link;
      var words, replacement := mem, next;
      if backGap >= MIN_BLOCK {
        words := Node(words, stop, end - stop, replacement);
        replacement := stop;
      }
      if frontGap >= MIN_BLOCK {
        words := Node(words, cur, frontGap, replacement);
        replacement := cur;
      }
      if prev == 0 {
        head := replacement;
      } else {
        words := Link(words, prev, replacement);
      }
      freeBytes := freeBytes - (stop - start);
      mem := Node(words, u - 16, start, stop - start);
      free, live := f, live[u := Live(t, need, al)];
    }

    /** dealloc_inner: read the block off the header, find its place in address order, merge with both neighbours. */
    method Dealloc(p: nat)
      requires Valid() && p in live
      modifies this
      ensures Valid() && LiveUntouched(old(mem), mem, live)
      ensures State() == Do(old(State()), Op.Dealloc(p)) && freeBytes == old(freeBytes) + old(live)[p].block.size
    {
      hide InMemory, HeapRuns.Heap.Good, LiveUntouched, Sum, Freed, Apart, Returnable, Position, Canonical, Block.Whole;
      ghost var b := live[p].block;
      BlockOf(State(), mem, head, p);
      Entering(State(), mem, head);
      var start, size := mem[p - 16], mem[p - 8];
      var prev, cur := 0, head;
      ghost var k := 0;
      if free != [] {
        Visit(State(), mem, head, 0);
      }
      while cur != 0 && cur < start
        invariant unchanged(this)
        invariant k <= |free| && cur == At(free, 0, k) && (k < |free| ==> cur != 0)
        invariant prev == (if k == 0 then 0 else free[k - 1].start)
        invariant forall i :: 0 <= i < k ==> free[i].start < start
        decreases |free| - k
      {
        Visit(State(), mem, head, k);
        prev, cur := cur, mem[cur + 8];
        k := k + 1;
        if k < |free| {
          Visit(State(), mem, head, k);
        }
      }
      PositionIs(free, start, k);
      Return(prev, cur, p, start, size, k);
    }

    /** The rest of dealloc_inner, once the place is found. */
    method Return(prev: nat, cur: nat, ghost p: nat, start: nat, size: nat, ghost k: nat)
      requires Valid() && p in live && live[p].block == Block(start, size) && k == Position(free, start)
      requires cur == At(free, 0, k) && prev == (if k == 0 then 0 else free[k - 1].start)
      modifies this
      ensures Valid() && LiveUntouched(old(mem), mem, live)
      ensures State() == Heap(whole, Freed(old(free), Block(start, size)), old(live) - {p})
      ensures freeBytes == old(freeBytes) + size
    {
      hide InMemory, HeapRuns.Heap.Good, LiveUntouched, Sum, Freed, Apart, Position, Canonical, Block.Whole, Node, Link,
           Merged;
      ghost var b := Block(start, size);
      CanReturn(State(), mem, head, p);
      DeallocKeeps(State(), mem, head, p);
      if k < |free| {
        NodeFacts(State(), mem, head, k);
      }
      if k > 0 {
        NodeFacts(State(), mem, head, k - 1);
      }
      freeBytes := freeBytes + size;
      ghost var m0 := mem;
      var words := Node(mem, start, size, cur);
      NodeRead(mem, start, size, cur);
      if cur != 0 && start + size == cur {
        ghost var w := words;
        words := Node(words, start, words[start] + words[cur], words[cur + 8]);
        NodeRead(w, start, w[start] + w[cur], w[cur + 8]);
      }
      if prev != 0 && prev + words[prev] == start {
        words := Node(words, prev, words[prev] + words[start], words[start + 8]);
      } else if prev == 0 {
        head := start;
      } else {
        words := Link(words, prev, start);
      }
      mem := words;
      assert mem == Returned(m0, free, k, b);
      free, live := Freed(free, b), live - {p};
    }

    /** A store by the owner of a live allocation, anywhere in what it asked for. */
    method Store(p: nat, a: nat, v: nat)
      requires Valid() && p in live && p <= a < p + live[p].need && a % 8 == 0
      modifies this
      ensures Valid() && State() == old(State()) && freeBytes == old(freeBytes) && mem == old(mem)[a := v]
    {
      StoreKeeps(State(), mem, head, p, a, v);
      hide *;
      mem := mem[a := v];
    }
  }
}
