/**
 Every run of the kernel heap (src/heap.rs): any sequence of legal allocations and frees, starting
 from the one block `init` makes.  The live blocks and the free list always divide the region, so
 the free list is a function of the live blocks and the history of the run does not show in it.
 */
module HeapRuns {
  import opened Options
  import opened HeapSpec
  import Bits

  /** One live allocation: the block its header records, and what was asked for. */
  datatype Live = Live(block: Block, need: nat, al: nat)

  /** The live allocations by the pointer handed out. */
  type Lives = map<nat, Live>

  predicate InLive(live: Lives, a: nat)
  {
    exists p :: p in live && live[p].block.Has(a)
  }

  predicate LiveOk(whole: Block, p: nat, l: Live)
  {
    && l.block.Whole() && whole.start <= l.block.start && l.block.End() <= whole.End()
    && l.block.start + HEADER <= p && p + l.need <= l.block.End() && l.block.size < l.need + 80
    && Request(l.need, l.al) && p % l.al == 0
  }

  predicate NoOverlap(b: Block, c: Block) { b.End() <= c.start || c.End() <= b.start }

  /** Every pointer meets its request with less than 64 bytes to spare, and no two live blocks overlap. */
  predicate LivesOk(whole: Block, live: Lives)
  {
    && (forall p :: p in live ==> LiveOk(whole, p, live[p]))
    && (forall p, q :: p in live && q in live && p != q ==> NoOverlap(live[p].block, live[q].block))
  }

  /** The free bytes are the region without the live blocks. */
  ghost predicate Divides(whole: Block, free: FreeList, live: Lives)
  {
    forall a: nat :: InFree(free, a) <==> whole.Has(a) && !InLive(live, a)
  }

  datatype Heap = Heap(whole: Block, free: FreeList, live: Lives)
  {
    ghost predicate Good()
    {
      whole.Whole() && Canonical(free) && LivesOk(whole, live) && Divides(whole, free, live)
    }
  }

  /** What Rust lets a Layout be: a power-of-two alignment, and a size that stays within isize::MAX when rounded up to
      it. */
  predicate Layout(size: nat, k: nat)
  {
    k < 64 && AlignUp(size, Bits.Pow2(k)) < Bits.WORD / 2
  }

  function Need(size: nat): nat { AlignUp(if size > 1 then size else 1, ALIGN) }
  function Al(k: nat): (r: nat)
    ensures r > 0
  {
    if Bits.Pow2(k) > ALIGN then Bits.Pow2(k) else ALIGN
  }

  lemma LegalRequest(size: nat, k: nat)
    ensures Request(Need(size), Al(k)) && Al(k) % Bits.Pow2(k) == 0
    ensures size <= Need(size) && forall n: nat :: 0 < n && n % 16 == 0 && size <= n ==> Need(size) <= n
    ensures 16 <= Al(k) && Al(k) in {16, Bits.Pow2(k)}
  {
    forall n: nat | 0 < n && n % 16 == 0 && size <= n ensures Need(size) <= n {
      AlignUpLeast(if size > 1 then size else 1, ALIGN, n);
    }
    AlignUpLeast(if size > 1 then size else 1, ALIGN, 0);
    Bits.Pow2Aligned(k);
    if k > 4 {
      Bits.PowLe(5, k);
      assert Bits.Pow2(5) == 32;
    } else {
      assert k == 0 || k == 1 || k == 2 || k == 3 || k == 4;
      assert Bits.Pow2(0) == 1 && Bits.Pow2(1) == 2 && Bits.Pow2(2) == 4 && Bits.Pow2(3) == 8 && Bits.Pow2(4) == 16;
    }
  }

  lemma Requested(size: nat, k: nat)
    ensures Request(Need(size), Al(k)) && Al(k) > 0
  {
    LegalRequest(size, k);
  }

  // --- one step ---

  datatype Op = Alloc(size: nat, k: nat) | Dealloc(ptr: nat)

  /** Only a legal Layout is asked for, and only a live pointer is freed. */
  predicate Legal(h: Heap, op: Op)
  {
    match op
    case Alloc(size, k) => Layout(size, k)
    case Dealloc(p) => p in h.live
  }

  function Do(h: Heap, op: Op): Heap
    requires Legal(h, op)
  {
    match op
    case Alloc(size, k) =>
      (match Allocated(h.free, Need(size), Al(k))
       case None => h
       case Some((f, b, u)) => Heap(h.whole, f, h.live[u := Live(b, Need(size), Al(k))]))
    case Dealloc(p) => Heap(h.whole, Freed(h.free, h.live[p].block), h.live - {p})
  }

  lemma InLiveAdd(live: Lives, u: nat, l: Live, a: nat)
    requires u !in live
    ensures InLive(live[u := l], a) <==> InLive(live, a) || l.block.Has(a)
  {
    var live' := live[u := l];
    if InLive(live, a) {
      var p :| p in live && live[p].block.Has(a);
      assert live'[p].block.Has(a);
    }
    if l.block.Has(a) {
      assert live'[u].block.Has(a);
    }
  }

  lemma InLiveDrop(whole: Block, live: Lives, p: nat, a: nat)
    requires p in live && LivesOk(whole, live)
    ensures InLive(live - {p}, a) <==> InLive(live, a) && !live[p].block.Has(a)
  {
    var live' := live - {p};
    if InLive(live, a) && !live[p].block.Has(a) {
      var q :| q in live && live[q].block.Has(a);
      assert live'[q].block.Has(a);
    }
    if InLive(live', a) {
      var q :| q in live' && live'[q].block.Has(a);
      assert live[q].block.Has(a) && NoOverlap(live[p].block, live[q].block);
    }
  }

  /** A block of free bytes lies in the region and overlaps no live block; its pointer is new. */
  lemma FreshBlock(whole: Block, free: FreeList, live: Lives, b: Block, u: nat)
    requires LivesOk(whole, live) && Divides(whole, free, live)
    requires b.size > 0 && b.Has(u) && forall a: nat :: b.Has(a) ==> InFree(free, a)
    ensures whole.start <= b.start && b.End() <= whole.End() && u !in live
    ensures forall p :: p in live ==> NoOverlap(live[p].block, b)
  {
    assert b.Has(b.start) && b.Has(b.End() - 1);
    assert InFree(free, b.start) && InFree(free, b.End() - 1) && InFree(free, u);
    forall p | p in live ensures NoOverlap(live[p].block, b) && p != u {
      var c := live[p].block;
      assert LiveOk(whole, p, live[p]);
      assert InLive(live, p) by {
        assert c.Has(p);
      }
      var a := if c.start < b.start then b.start else c.start;
      assert c.Has(a) ==> InLive(live, a);
      assert b.Has(a) ==> InFree(free, a);
    }
  }

  /** An allocation keeps the division of the region, and its pointer is new. */
  lemma AllocGood(h: Heap, need: nat, al: nat)
    requires h.Good() && Request(need, al) && Allocated(h.free, need, al).Some?
    ensures
      var (f, b, u) := Allocated(h.free, need, al).value;
      u !in h.live && Heap(h.whole, f, h.live[u := Live(b, need, al)]).Good()
  {
    hide Allocated, Canonical, Sum, InFree, FirstFit, UserStart, RoomBefore, RoomAfter;
    AllocatedOk(h.free, need, al);
    AllocatedTight(h.free, need, al);
    var (f, b, u) := Allocated(h.free, need, al).value;
    FreshBlock(h.whole, h.free, h.live, b, u);
    var live' := h.live[u := Live(b, need, al)];
    assert LivesOk(h.whole, live');
    hide LivesOk, InLive;
    forall a: nat ensures InFree(f, a) <==> h.whole.Has(a) && !InLive(live', a) {
      InLiveAdd(h.live, u, Live(b, need, al), a);
    }
  }

  lemma DeallocGood(h: Heap, p: nat)
    requires h.Good() && p in h.live
    ensures Heap(h.whole, Freed(h.free, h.live[p].block), h.live - {p}).Good()
  {
    var b, live' := h.live[p].block, h.live - {p};
    assert LiveOk(h.whole, p, h.live[p]);
    assert Apart(h.free, b);
    FreedOk(h.free, b);
    hide Freed, Canonical, Sum, InFree;
    assert LivesOk(h.whole, live');
    forall a: nat ensures InFree(Freed(h.free, b), a) <==> h.whole.Has(a) && !InLive(live', a) {
      InLiveDrop(h.whole, h.live, p, a);
    }
  }

  lemma StepGood(h: Heap, op: Op)
    requires h.Good() && Legal(h, op)
    ensures Do(h, op).Good() && Do(h, op).whole == h.whole
  {
    match op
    case Alloc(size, k) =>
      Requested(size, k);
      if Allocated(h.free, Need(size), Al(k)).Some? {
        AllocGood(h, Need(size), Al(k));
      }
    case Dealloc(p) => DeallocGood(h, p);
  }

  // --- every run ---

  predicate LegalRun(h: Heap, ops: seq<Op>)
    decreases |ops|
  {
    ops == [] || (Legal(h, ops[0]) && LegalRun(Do(h, ops[0]), ops[1..]))
  }

  function Run(h: Heap, ops: seq<Op>): Heap
    requires LegalRun(h, ops)
    decreases |ops|
  {
    if ops == [] then h else Run(Do(h, ops[0]), ops[1..])
  }

  /** What `init` sets up. */
  function Start(whole: Block): Heap { Heap(whole, [whole], map[]) }

  lemma StartGood(whole: Block)
    requires whole.Whole()
    ensures Start(whole).Good()
  {
    forall a: nat ensures InFree([whole], a) <==> whole.Has(a) && !InLive(map[], a) {
      OneIn(whole, a);
    }
  }

  lemma {:induction false} RunGood(h: Heap, ops: seq<Op>)
    requires h.Good() && LegalRun(h, ops)
    ensures Run(h, ops).Good() && Run(h, ops).whole == h.whole
    decreases |ops|
  {
    if ops != [] {
      StepGood(h, ops[0]);
      RunGood(Do(h, ops[0]), ops[1..]);
    }
  }

  /** At the end of every run the region is divided exactly, whatever happened on the way. */
  lemma EveryRun(whole: Block, ops: seq<Op>)
    requires whole.Whole() && LegalRun(Start(whole), ops)
    ensures Run(Start(whole), ops).Good() && Run(Start(whole), ops).whole == whole
  {
    StartGood(whole);
    RunGood(Start(whole), ops);
  }

  /** Two heaps over the same region whose live blocks cover the same bytes have the same free list. */
  lemma LiveDeterminesFree(h: Heap, g: Heap)
    requires h.Good() && g.Good() && h.whole == g.whole
    requires forall a: nat :: InLive(h.live, a) <==> InLive(g.live, a)
    ensures h.free == g.free
  {
    hide Canonical, LivesOk, InLive, InFree;
    CanonicalUnique(h.free, g.free);
  }

  lemma HistoryIndependent(whole: Block, ops: seq<Op>, ops': seq<Op>)
    requires whole.Whole() && LegalRun(Start(whole), ops) && LegalRun(Start(whole), ops')
    requires forall a: nat :: InLive(Run(Start(whole), ops).live, a) <==> InLive(Run(Start(whole), ops').live, a)
    ensures Run(Start(whole), ops).free == Run(Start(whole), ops').free
  {
    EveryRun(whole, ops);
    EveryRun(whole, ops');
    LiveDeterminesFree(Run(Start(whole), ops), Run(Start(whole), ops'));
  }

  /** With nothing live, the heap is the one block init made. */
  lemma NothingLive(h: Heap)
    requires h.Good() && h.live == map[]
    ensures h == Start(h.whole)
  {
    StartGood(h.whole);
    LiveDeterminesFree(h, Start(h.whole));
  }

  function Deallocs(order: seq<nat>): seq<Op>
  {
    if order == [] then [] else [Dealloc(order[0])] + Deallocs(order[1..])
  }

  predicate Lists(order: seq<nat>, live: Lives)
  {
    && (forall i :: 0 <= i < |order| ==> order[i] in live)
    && (forall i, j :: 0 <= i < j < |order| ==> order[i] != order[j])
    && (forall p :: p in live ==> p in order)
  }

  lemma ListsRest(order: seq<nat>, live: Lives)
    requires Lists(order, live) && order != []
    ensures Lists(order[1..], live - {order[0]})
  {
    forall p | p in live - {order[0]} ensures p in order[1..] {
      assert p in order && p != order[0];
    }
  }

  /** Freeing everything that is live, in any order, is legal and restores the heap init made. */
  lemma {:induction false} FreeAll(h: Heap, order: seq<nat>)
    requires h.Good() && Lists(order, h.live)
    ensures LegalRun(h, Deallocs(order)) && Run(h, Deallocs(order)) == Start(h.whole)
    decreases |order|
  {
    if order == [] {
      assert h.live == map[];
      NothingLive(h);
    } else {
      var h' := Do(h, Dealloc(order[0]));
      StepGood(h, Dealloc(order[0]));
      assert Deallocs(order)[0] == Dealloc(order[0]) && Deallocs(order)[1..] == Deallocs(order[1..]);
      ListsRest(order, h.live);
      FreeAll(h', order[1..]);
    }
  }

  // --- no arithmetic in the code overflows ---

  /** For every legal Layout and every block of a heap in the first half of the address space, each sum alloc forms
      fits 64 bits. */
  lemma NoOverflow(b: Block, size: nat, k: nat)
    requires Layout(size, k) && b.End() < 0x1_0000_0000_0000
    ensures (if size > 1 then size else 1) + ALIGN - 1 < Bits.WORD
    ensures b.start + HEADER + Al(k) - 1 < Bits.WORD
    ensures UserStart(b, Al(k)) + Need(size) < Bits.WORD
  {
    var a := Bits.Pow2(k);
    Bits.PowLe(k, 63);
    Bits.Powers();
    AlignUpLeast(size, a, 0);
    AlignUpLeast(if size > 1 then size else 1, ALIGN, 0);
    AlignUpLeast(b.start + HEADER, Al(k), 0);
    SizeAndAlign(AlignUp(size, a), k);
  }

  /** A multiple of `a` below a multiple of `a` leaves room for `a`. */
  lemma RoomFor(r: nat, a: nat, n: nat)
    requires a > 0 && r % a == 0 && r < n * a
    ensures r + a <= n * a
  {
    DivBounds(r, a);
    if r / a >= n {
      MulLe(n, r / a, a);
    } else {
      MulLe(r / a + 1, n, a);
    }
  }

  /** A rounded size and its alignment together stay within 2^63. */
  lemma SizeAndAlign(r: nat, k: nat)
    requires k <= 63 && r % Bits.Pow2(k) == 0 && r < Bits.WORD / 2
    ensures r + Bits.Pow2(k) <= Bits.WORD / 2
  {
    PowSplit(k, 63);
    Bits.Powers();
    hide Bits.Pow2;
    RoomFor(r, Bits.Pow2(k), Bits.Pow2(63 - k));
  }

  lemma {:induction false} PowSplit(k: nat, n: nat)
    requires k <= n
    ensures Bits.Pow2(n - k) * Bits.Pow2(k) == Bits.Pow2(n)
  {
    if k > 0 {
      PowSplit(k - 1, n);
      Bits.MulDouble(Bits.Pow2(n - k), Bits.Pow2(k - 1));
      assert Bits.Pow2(n - k + 1) == 2 * Bits.Pow2(n - k);
    }
  }
}
