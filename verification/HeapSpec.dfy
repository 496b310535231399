/**
 The free list of the kernel heap as a list of address intervals (src/heap.rs): what `alloc` takes
 out of it, what `dealloc` puts back, and why the list is determined by the live blocks alone.
 */
module HeapSpec {
  import opened Options

  const ALIGN := 16
  const MIN_BLOCK := 32
  const HEADER := 16

  datatype Block = Block(start: nat, size: nat)
  {
    function End(): nat { start + size }
    predicate Has(a: nat) { start <= a < End() }
    predicate Whole() { start % ALIGN == 0 && size % ALIGN == 0 && MIN_BLOCK <= size }
  }

  type FreeList = seq<Block>

  predicate InFree(free: FreeList, a: nat)
  {
    exists i :: 0 <= i < |free| && free[i].Has(a)
  }

  /** Sorted by address, aligned, never too small, and never touching: the maximal intervals of what they cover. */
  predicate Canonical(free: FreeList)
  {
    && (forall i :: 0 <= i < |free| ==> free[i].Whole())
    && (forall i, j :: 0 <= i < j < |free| ==> free[i].End() < free[j].start)
  }

  function Sum(free: FreeList): nat
  {
    if free == [] then 0 else free[0].size + Sum(free[1..])
  }

  // --- a canonical list is determined by the bytes it covers ---

  lemma {:induction false} CanonicalUnique(f: FreeList, g: FreeList)
    requires Canonical(f) && Canonical(g)
    requires forall a: nat :: InFree(f, a) <==> InFree(g, a)
    ensures f == g
    decreases |f|
  {
    HeadIn(f);
    HeadIn(g);
    if f != [] && g != [] {
      FirstLeq(f, g);
      FirstLeq(g, f);
      EndLeq(f, g);
      EndLeq(g, f);
      forall a: nat ensures InFree(f[1..], a) <==> InFree(g[1..], a) {
        TailIn(f, a);
        TailIn(g, a);
      }
      CanonicalUnique(f[1..], g[1..]);
      assert f == [f[0]] + f[1..] && g == [g[0]] + g[1..];
    }
  }

  lemma HeadIn(f: FreeList)
    requires Canonical(f)
    ensures f != [] ==> InFree(f, f[0].start)
  {
    if f != [] {
      assert f[0].Has(f[0].start);
    }
  }

  lemma FirstLeq(f: FreeList, g: FreeList)
    requires Canonical(f) && Canonical(g) && f != [] && g != []
    requires forall a: nat :: InFree(f, a) <==> InFree(g, a)
    ensures g[0].start <= f[0].start
  {
    HeadIn(f);
  }

  lemma EndLeq(f: FreeList, g: FreeList)
    requires Canonical(f) && Canonical(g) && f != [] && g != [] && f[0].start == g[0].start
    requires forall a: nat :: InFree(f, a) <==> InFree(g, a)
    ensures g[0].End() <= f[0].End()
  {
    assert !InFree(f, f[0].End());
    assert !g[0].Has(f[0].End());
  }

  lemma TailIn(f: FreeList, a: nat)
    requires Canonical(f) && f != []
    ensures InFree(f[1..], a) <==> InFree(f, a) && !f[0].Has(a)
  {
    if InFree(f, a) && !f[0].Has(a) {
      var i :| 0 <= i < |f| && f[i].Has(a);
      assert f[1..][i - 1].Has(a);
    }
    if InFree(f[1..], a) {
      var i :| 0 <= i < |f[1..]| && f[1..][i].Has(a);
      assert f[i + 1].Has(a);
    }
  }

  // --- the sum is the number of free bytes ---

  function FreeBytes(free: FreeList, n: nat): set<nat> { set a: nat | a < n && InFree(free, a) }

  function BlockBytes(b: Block): set<nat> { set a: nat | a < b.End() && b.Has(a) }

  lemma {:induction false} BlockSize(b: Block)
    ensures |BlockBytes(b)| == b.size
    decreases b.size
  {
    if b.size == 0 {
      assert BlockBytes(b) == {};
    } else {
      var c := Block(b.start, b.size - 1);
      BlockSize(c);
      forall a: nat ensures b.Has(a) <==> c.Has(a) || a == c.End() {
      }
      assert b.Has(c.End());
      assert BlockBytes(b) == BlockBytes(c) + {c.End()};
    }
  }

  lemma HeadBytes(free: FreeList, n: nat)
    requires Canonical(free) && free != [] && free[0].End() <= n
    ensures FreeBytes(free, n) == FreeBytes(free[1..], n) + BlockBytes(free[0])
    ensures FreeBytes(free[1..], n) !! BlockBytes(free[0])
  {
    forall a: nat ensures InFree(free[1..], a) <==> InFree(free, a) && !free[0].Has(a) {
      TailIn(free, a);
    }
    forall a: nat | free[0].Has(a) ensures InFree(free, a) {
    }
    hide InFree, Canonical;
  }

  /** The sum of the sizes is the number of free bytes. */
  lemma {:induction false} SumCounts(free: FreeList, n: nat)
    requires Canonical(free) && forall i :: 0 <= i < |free| ==> free[i].End() <= n
    ensures Sum(free) == |FreeBytes(free, n)|
  {
    if free == [] {
      assert FreeBytes(free, n) == {};
    } else {
      var b, rest := free[0], free[1..];
      SumCounts(rest, n);
      BlockSize(b);
      HeadBytes(free, n);
      assert |FreeBytes(rest, n) + BlockBytes(b)| == |FreeBytes(rest, n)| + |BlockBytes(b)|;
    }
  }

  // --- replacing one stretch of the list ---

  /** A list with [i, j) replaced; every operation on the list has this form. */
  function Splice(free: FreeList, i: nat, mid: FreeList, j: nat): FreeList
    requires i <= j <= |free|
  {
    free[..i] + mid + free[j..]
  }

  lemma {:induction false} SumConcat(f: FreeList, g: FreeList)
    ensures Sum(f + g) == Sum(f) + Sum(g)
  {
    if f == [] {
      assert f + g == g;
    } else {
      assert (f + g)[1..] == f[1..] + g;
      SumConcat(f[1..], g);
    }
  }

  lemma SpliceSum(free: FreeList, i: nat, mid: FreeList, j: nat)
    requires i <= j <= |free|
    ensures Sum(Splice(free, i, mid, j)) == Sum(free) - Sum(free[i..j]) + Sum(mid)
  {
    SumConcat(free[..i] + mid, free[j..]);
    SumConcat(free[..i], mid);
    assert free == free[..i] + free[i..j] + free[j..];
    SumConcat(free[..i] + free[i..j], free[j..]);
    SumConcat(free[..i], free[i..j]);
  }

  lemma SpliceIn(free: FreeList, i: nat, mid: FreeList, j: nat, a: nat)
    requires i <= j <= |free| && Canonical(free)
    ensures InFree(Splice(free, i, mid, j), a) <==> InFree(mid, a) || (InFree(free, a) && !InFree(free[i..j], a))
  {
    InConcat(free[..i] + mid, free[j..], a);
    InConcat(free[..i], mid, a);
    assert free == free[..i] + free[i..j] + free[j..];
    InConcat(free[..i] + free[i..j], free[j..], a);
    InConcat(free[..i], free[i..j], a);
    PartApart(free, 0, i, i, j, a);
    PartApart(free, i, j, j, |free|, a);
  }

  lemma InConcat(f: FreeList, g: FreeList, a: nat)
    ensures InFree(f + g, a) <==> InFree(f, a) || InFree(g, a)
  {
    if InFree(f, a) {
      var k :| 0 <= k < |f| && f[k].Has(a);
      assert (f + g)[k].Has(a);
    }
    if InFree(g, a) {
      var k :| 0 <= k < |g| && g[k].Has(a);
      assert (f + g)[|f| + k].Has(a);
    }
  }

  lemma PartApart(free: FreeList, i: nat, j: nat, k: nat, m: nat, a: nat)
    requires Canonical(free) && i <= j <= k <= m <= |free|
    ensures !(InFree(free[i..j], a) && InFree(free[k..m], a))
  {
    if InFree(free[i..j], a) {
      var x :| 0 <= x < j - i && free[i..j][x].Has(a);
      assert free[i + x].Has(a);
      forall y | 0 <= y < m - k ensures !free[k..m][y].Has(a) {
        assert free[k..m][y] == free[k + y];
      }
    }
  }

  /** A splice of a canonical middle that fits strictly between its neighbours is canonical. */
  lemma SpliceCanonical(free: FreeList, i: nat, mid: FreeList, j: nat)
    requires i <= j <= |free| && Canonical(free) && Canonical(mid)
    requires forall k, m :: 0 <= k < i && 0 <= m < |mid| ==> free[k].End() < mid[m].start
    requires forall k, m :: j <= k < |free| && 0 <= m < |mid| ==> mid[m].End() < free[k].start
    ensures Canonical(Splice(free, i, mid, j))
  {
    var r := Splice(free, i, mid, j);
    forall k | 0 <= k < |r|
      ensures r[k].Whole()
      ensures r[k] == (if k < i then free[k] else if k < i + |mid| then mid[k - i] else free[k - i - |mid| + j])
    {
    }
  }

  // --- alignment ---

  /** `align_up`, for the alignments a Layout can have (see Bits for the bit expression). */
  function AlignUp(x: nat, a: nat): (r: nat)
    requires a > 0
  {
    (x + a - 1) / a * a
  }

  lemma DivBounds(y: nat, a: nat)
    requires a > 0
    ensures y / a * a <= y < y / a * a + a
  {
    assert y == y / a * a + y % a;
  }

  lemma MulMod(q: nat, a: nat)
    requires a > 0
    ensures (q * a) % a == 0
  {
    var d := (q * a) / a;
    DivBounds(q * a, a);
    if d < q {
      MulLe(d + 1, q, a);
    } else if q < d {
      MulLe(q + 1, d, a);
    }
  }

  /** The least multiple of `a` that is not below `x`. */
  lemma AlignUpLeast(x: nat, a: nat, p: nat)
    requires a > 0
    ensures x <= AlignUp(x, a) < x + a && AlignUp(x, a) % a == 0
    ensures p % a == 0 && x <= p ==> AlignUp(x, a) <= p
  {
    DivBounds(x + a - 1, a);
    var q := (x + a - 1) / a;
    MulMod(q, a);
    if p % a == 0 && x <= p {
      DivBounds(p, a);
      assert p == p / a * a;
      if p / a < q {
        MulLe(p / a, q - 1, a);
      } else {
        MulLe(q, p / a, a);
      }
    }
  }

  lemma MulLe(m: nat, n: nat, a: nat)
    requires m <= n
    ensures m * a <= n * a
  {
  }

  lemma AlignedTo16(u: nat, a: nat)
    requires a > 0 && a % 16 == 0 && u % a == 0
    ensures u % 16 == 0
  {
    var q, k := u / a, a / 16;
    DivBounds(u, a);
    assert u == q * a && a == 16 * k;
    assert u == 16 * (q * k);
  }

  // --- carving an allocation out of a block ---

  /** A request as `alloc_inner` normalises it. */
  predicate Request(need: nat, al: nat) { 0 < need && need % ALIGN == 0 && 0 < al && al % ALIGN == 0 }

  function UserStart(b: Block, al: nat): nat
    requires al > 0
  {
    AlignUp(b.start + HEADER, al)
  }

  predicate Fits(b: Block, need: nat, al: nat)
    requires al > 0
  {
    UserStart(b, al) + need <= b.End()
  }

  /** What is left in front and behind, if it is worth keeping. */
  function Remains(b: Block, u: nat, need: nat): FreeList
    requires b.start + HEADER <= u && u + need <= b.End()
  {
    (if u - HEADER - b.start >= MIN_BLOCK then [Block(b.start, u - HEADER - b.start)] else []) +
    (if b.End() - (u + need) >= MIN_BLOCK then [Block(u + need, b.End() - (u + need))] else [])
  }

  /** The block an allocation is charged with: header, payload, and slack too small to keep. */
  function Taken(b: Block, u: nat, need: nat): Block
    requires b.start + HEADER <= u && u + need <= b.End()
  {
    var start := if u - HEADER - b.start >= MIN_BLOCK then u - HEADER else b.start;
    var end := if b.End() - (u + need) >= MIN_BLOCK then u + need else b.End();
    Block(start, end - start)
  }

  lemma Carve(b: Block, u: nat, need: nat)
    requires b.Whole() && u % ALIGN == 0 && need % ALIGN == 0 && 0 < need && b.start + HEADER <= u
    requires u + need <= b.End()
    ensures
      var t, rest := Taken(b, u, need), Remains(b, u, need);
      && t.Whole() && b.start <= t.start && t.start + HEADER <= u && u + need <= t.End() <= b.End()
      && Canonical(rest) && Sum(rest) + t.size == b.size
      && (forall k :: 0 <= k < |rest| ==> b.start <= rest[k].start && rest[k].End() <= b.End())
      && (forall a: nat :: InFree(rest, a) <==> b.Has(a) && !t.Has(a))
  {
    var t, rest := Taken(b, u, need), Remains(b, u, need);
    var front := if t.start > b.start then [Block(b.start, t.start - b.start)] else [];
    var back := if t.End() < b.End() then [Block(t.End(), b.End() - t.End())] else [];
    CarveBlocks(b, u, need);
    assert rest == front + back;
    SumConcat(front, back);
    assert Sum(front) == t.start - b.start && Sum(back) == b.End() - t.End();
    forall a: nat ensures InFree(rest, a) <==> b.Has(a) && !t.Has(a) {
      InConcat(front, back, a);
      assert InFree(front, a) <==> b.start <= a < t.start by {
        OneIn(Block(b.start, t.start - b.start), a);
      }
      assert InFree(back, a) <==> t.End() <= a < b.End() by {
        OneIn(Block(t.End(), b.End() - t.End()), a);
      }
    }
  }

  lemma CarveBlocks(b: Block, u: nat, need: nat)
    requires b.Whole() && u % ALIGN == 0 && need % ALIGN == 0 && 0 < need && b.start + HEADER <= u
    requires u + need <= b.End()
    ensures
      var t := Taken(b, u, need);
      && t.Whole() && b.start <= t.start && t.start + HEADER <= u && u + need <= t.End() <= b.End()
      && (t.start > b.start ==> Block(b.start, t.start - b.start).Whole())
      && (t.End() < b.End() ==> Block(t.End(), b.End() - t.End()).Whole())
  {
    Multiples(b.start, b.size);
    Multiples(u, need);
    Multiples(HEADER, u - HEADER);
    var t := Taken(b, u, need);
    assert t.start % ALIGN == 0 && t.End() % ALIGN == 0;
    Multiples(b.start, t.start - b.start);
    Multiples(t.start, t.size);
    Multiples(t.End(), b.End() - t.End());
  }

  /** Sums and differences of multiples of 16. */
  lemma Multiples(x: nat, y: nat)
    requires x % ALIGN == 0
    ensures (x + y) % ALIGN == 0 <==> y % ALIGN == 0
  {
  }

  // --- first fit ---

  function FirstFit(free: FreeList, need: nat, al: nat): (i: nat)
    requires al > 0
    ensures i <= |free| && (i < |free| ==> Fits(free[i], need, al))
    ensures forall j :: 0 <= j < i ==> !Fits(free[j], need, al)
  {
    if free == [] || Fits(free[0], need, al) then 0 else 1 + FirstFit(free[1..], need, al)
  }

  /** The list and the allocation after a request, or None if it is refused. */
  function Allocated(free: FreeList, need: nat, al: nat): Option<(FreeList, Block, nat)>
    requires al > 0
  {
    var i := FirstFit(free, need, al);
    if i == |free| then None else
    AlignUpLeast(free[i].start + HEADER, al, 0);
    var u := UserStart(free[i], al);
    Some((Splice(free, i, Remains(free[i], u, need), i + 1), Taken(free[i], u, need), u))
  }

  /** An allocation takes its block out of the free bytes and nothing else, and the list stays canonical. */
  lemma AllocatedOk(free: FreeList, need: nat, al: nat)
    requires Canonical(free) && Request(need, al) && Allocated(free, need, al).Some?
    ensures
      var (free', b, u) := Allocated(free, need, al).value;
      && Canonical(free') && b.Whole() && u % al == 0 && b.start + HEADER <= u && u + need <= b.End()
      && Sum(free') + b.size == Sum(free)
      && (forall a: nat :: InFree(free', a) <==> InFree(free, a) && !b.Has(a))
      && (forall a: nat :: b.Has(a) ==> InFree(free, a))
  {
    var i := FirstFit(free, need, al);
    AlignUpLeast(free[i].start + HEADER, al, 0);
    AlignedTo16(UserStart(free[i], al), al);
    CarveSplice(free, i, UserStart(free[i], al), need);
  }

  lemma CarveSplice(free: FreeList, i: nat, u: nat, need: nat)
    requires Canonical(free) && i < |free| && u % ALIGN == 0 && need % ALIGN == 0 && 0 < need
    requires free[i].start + HEADER <= u && u + need <= free[i].End()
    ensures
      var free', b := Splice(free, i, Remains(free[i], u, need), i + 1), Taken(free[i], u, need);
      && Canonical(free') && b.Whole() && b.start + HEADER <= u && u + need <= b.End()
      && Sum(free') + b.size == Sum(free)
      && (forall a: nat :: InFree(free', a) <==> InFree(free, a) && !b.Has(a))
      && (forall a: nat :: b.Has(a) ==> InFree(free, a))
  {
    Carve(free[i], u, need);
    var rest, b := Remains(free[i], u, need), Taken(free[i], u, need);
    hide Remains, Taken;
    SpliceCanonical(free, i, rest, i + 1);
    SpliceSum(free, i, rest, i + 1);
    assert free[i..i + 1] == [free[i]];
    assert Sum([free[i]]) == free[i].size;
    hide Splice, Sum, Canonical;
    forall a: nat ensures InFree(Splice(free, i, rest, i + 1), a) <==> InFree(free, a) && !b.Has(a) {
      SpliceIn(free, i, rest, i + 1, a);
      OneIn(free[i], a);
    }
  }

  lemma OneIn(b: Block, a: nat)
    ensures InFree([b], a) <==> b.Has(a)
  {
    if b.Has(a) {
      assert [b][0].Has(a);
    }
  }

  // --- completeness of first fit ---

  /** A header of 16 bytes and an aligned payload fit at `p`, anywhere in the free bytes. */
  ghost predicate Placement(free: FreeList, need: nat, al: nat, p: nat)
    requires al > 0
  {
    16 <= p && p % al == 0 && forall a: nat :: p - 16 <= a < p + need ==> InFree(free, a)
  }

  /** Free bytes that are contiguous lie in one block: there is no seam to miss. */
  lemma PlacementInOne(free: FreeList, need: nat, al: nat, p: nat) returns (k: nat)
    requires Canonical(free) && Request(need, al) && Placement(free, need, al, p)
    ensures k < |free| && free[k].start + HEADER <= p && p + need <= free[k].End()
  {
    assert InFree(free, p - HEADER);
    k :| 0 <= k < |free| && free[k].Has(p - HEADER);
    NoSeam(free, k);
    assert !(p - HEADER <= free[k].End() < p + need);
  }

  lemma NoSeam(free: FreeList, k: nat)
    requires Canonical(free) && k < |free|
    ensures !InFree(free, free[k].End())
  {
    forall i | 0 <= i < |free| ensures !free[i].Has(free[k].End()) {
      assert free[i].Whole();
    }
  }

  /** alloc fails if and only if no placement exists anywhere in the free bytes, and otherwise returns the
      lowest one. */
  lemma FirstFitComplete(free: FreeList, need: nat, al: nat)
    requires Canonical(free) && Request(need, al)
    ensures Allocated(free, need, al).None? <==> forall p: nat :: !Placement(free, need, al, p)
    ensures Allocated(free, need, al).Some? ==>
              var u := Allocated(free, need, al).value.2;
              Placement(free, need, al, u) && forall p: nat :: Placement(free, need, al, p) ==> u <= p
  {
    var i := FirstFit(free, need, al);
    forall p: nat | Placement(free, need, al, p) ensures i < |free| && UserStart(free[i], al) <= p {
      var k := PlacementInOne(free, need, al, p);
      AlignUpLeast(free[k].start + HEADER, al, p);
      assert Fits(free[k], need, al);
      if i != k {
        assert free[i].End() < free[k].start;
      }
    }
    if i < |free| {
      var u := UserStart(free[i], al);
      AlignUpLeast(free[i].start + HEADER, al, 0);
      forall a: nat | u - HEADER <= a < u + need ensures InFree(free, a) {
        assert free[i].Has(a);
      }
      assert Placement(free, need, al, u);
    }
  }

  // --- an allocation takes no more than it must ---

  /** Enough free bytes right before, or right after, to be a block of their own. */
  ghost predicate RoomBefore(free: FreeList, p: nat)
  {
    32 <= p && forall a: nat :: p - 32 <= a < p ==> InFree(free, a)
  }
  ghost predicate RoomAfter(free: FreeList, p: nat) { forall a: nat :: p <= a < p + 32 ==> InFree(free, a) }

  lemma NoSeamBefore(free: FreeList, k: nat, a: nat)
    requires Canonical(free) && k < |free| && a + 1 == free[k].start
    ensures !InFree(free, a)
  {
    forall i | 0 <= i < |free| ensures !free[i].Has(a) {
      assert free[i].Whole() && free[k].Whole();
    }
  }

  /** A block of header, payload and less than 32 bytes of slack at either end. */
  predicate Tight(b: Block, u: nat, need: nat) { u - 48 < b.start <= u - 16 && u + need <= b.End() < u + need + 32 }

  /** On either side the block of an allocation ends right at its header or payload if the free bytes beyond are enough
      for a block, and at the end of the free bytes otherwise: what is absorbed is less than 32 bytes, and only what
      could not have stayed free. */
  lemma AllocatedTight(free: FreeList, need: nat, al: nat)
    requires Canonical(free) && Request(need, al) && Allocated(free, need, al).Some?
    ensures
      var (_, b, u) := Allocated(free, need, al).value;
      && 16 <= u && Tight(b, u, need)
      && (if RoomBefore(free, u - 16) then b.start == u - 16 else b.start == 0 || !InFree(free, b.start - 1))
      && (if RoomAfter(free, u + need) then b.End() == u + need else !InFree(free, b.End()))
  {
    var i := FirstFit(free, need, al);
    var r := free[i];
    AlignUpLeast(r.start + HEADER, al, 0);
    var u := UserStart(r, al);
    NoSeam(free, i);
    if r.start > 0 {
      NoSeamBefore(free, i, r.start - 1);
    }
    forall a: nat | r.Has(a) ensures InFree(free, a) {
    }
    hide UserStart;
    if u - HEADER - r.start < 32 && u - HEADER >= 32 {
      assert u - HEADER - 32 <= r.start - 1 < u - HEADER;
    }
    if r.End() - (u + need) < 32 {
      assert u + need <= r.End() < u + need + 32;
    }
  }

  /** It is the least block around header and payload that can be taken: any other leaves a free piece too small to be a
      block. */
  lemma AllocatedLeast(free: FreeList, need: nat, al: nat, c: Block, rest: FreeList)
    requires Canonical(free) && Request(need, al) && Allocated(free, need, al).Some?
    requires var u := Allocated(free, need, al).value.2; 16 <= u && c.start <= u - 16 && u + need <= c.End()
    requires Canonical(rest) && forall a: nat :: InFree(rest, a) <==> InFree(free, a) && !c.Has(a)
    ensures var b := Allocated(free, need, al).value.1; c.start <= b.start && b.End() <= c.End()
  {
    AllocatedOk(free, need, al);
    AllocatedTight(free, need, al);
    var (_, b, u) := Allocated(free, need, al).value;
    hide Allocated;
    if b.start < c.start {
      assert b.Has(b.start);
      PieceRoom(rest, b.start, b.start, c.start);
    } else if c.End() < b.End() {
      assert b.Has(b.End() - 1);
      PieceRoom(rest, b.End() - 1, c.End(), b.End());
    }
  }

  /** A maximal free piece is at least a block. */
  lemma PieceRoom(rest: FreeList, a: nat, lo: nat, hi: nat)
    requires Canonical(rest) && InFree(rest, a) && lo <= a < hi
    requires (lo == 0 || !InFree(rest, lo - 1)) && !InFree(rest, hi)
    ensures hi - lo >= 32
  {
    var k :| 0 <= k < |rest| && rest[k].Has(a);
    assert rest[k].Whole() && !rest[k].Has(hi);
    if lo > 0 {
      assert !rest[k].Has(lo - 1);
    }
  }

  // --- giving a block back ---

  /** Where a block goes in address order. */
  function Position(free: FreeList, start: nat): (k: nat)
    ensures k <= |free| && (forall i :: 0 <= i < k ==> free[i].start < start) && (k < |free| ==> start <= free[k].start)
  {
    if free == [] || start <= free[0].start then 0 else 1 + Position(free[1..], start)
  }

  predicate Forward(free: FreeList, k: nat, b: Block) { k < |free| && b.End() == free[k].start }
  predicate Backward(free: FreeList, k: nat, b: Block) { 0 < k <= |free| && free[k - 1].End() == b.start }

  /** The block merged with the neighbours it touches. */
  function Merged(free: FreeList, k: nat, b: Block): Block
  {
    var start := if Backward(free, k, b) then free[k - 1].start else b.start;
    var end := if Forward(free, k, b) then free[k].End() else b.End();
    if start <= end then Block(start, end - start) else b
  }

  /** The list after freeing `b`. */
  function Freed(free: FreeList, b: Block): FreeList
  {
    var k := Position(free, b.start);
    Splice(free, if Backward(free, k, b) then k - 1 else k, [Merged(free, k, b)],
           if Forward(free, k, b) then k + 1 else k)
  }

  ghost predicate Apart(free: FreeList, b: Block) { forall a: nat :: b.Has(a) ==> !InFree(free, a) }

  /** Freeing adds the block's bytes and nothing else, and the list stays canonical. */
  lemma FreedOk(free: FreeList, b: Block)
    requires Canonical(free) && b.Whole() && Apart(free, b)
    ensures Canonical(Freed(free, b)) && Sum(Freed(free, b)) == Sum(free) + b.size
    ensures forall a: nat :: InFree(Freed(free, b), a) <==> InFree(free, a) || b.Has(a)
  {
    FreedCanonical(free, b);
    FreedSum(free, b);
    forall a: nat ensures InFree(Freed(free, b), a) <==> InFree(free, a) || b.Has(a) {
      FreedIn(free, b, a);
    }
  }

  lemma FreedCanonical(free: FreeList, b: Block)
    requires Canonical(free) && b.Whole() && Apart(free, b)
    ensures Canonical(Freed(free, b))
  {
    hide Position, InFree, Apart, Splice, Block.Whole;
    var k := Position(free, b.start);
    Neighbours(free, b, k);
    var i := if Backward(free, k, b) then k - 1 else k;
    var j := if Forward(free, k, b) then k + 1 else k;
    var m := Merged(free, k, b);
    forall x | 0 <= x < i ensures free[x].End() < m.start {
      if i < k {
        assert free[x].End() < free[k - 1].start;
      }
    }
    forall x | j <= x < |free| ensures m.End() < free[x].start {
      if k < j {
        assert free[k].End() < free[x].start;
      }
    }
    hide Merged;
    SpliceCanonical(free, i, [m], j);
  }

  lemma FreedSum(free: FreeList, b: Block)
    requires Canonical(free) && b.Whole()
    ensures Sum(Freed(free, b)) == Sum(free) + b.size
  {
    var k := Position(free, b.start);
    MergedWhole(free, b, k);
    hide InFree;
    var i := if Backward(free, k, b) then k - 1 else k;
    var j := if Forward(free, k, b) then k + 1 else k;
    var m := Merged(free, k, b);
    assert Sum([m]) == m.size;
    SpliceSum(free, i, [m], j);
    SumPart(free, i, k, j);
  }

  lemma FreedIn(free: FreeList, b: Block, a: nat)
    requires Canonical(free) && b.Whole() && Apart(free, b)
    ensures InFree(Freed(free, b), a) <==> InFree(free, a) || b.Has(a)
  {
    var k := Position(free, b.start);
    var i := if Backward(free, k, b) then k - 1 else k;
    var j := if Forward(free, k, b) then k + 1 else k;
    SpliceIn(free, i, [Merged(free, k, b)], j, a);
    MergedHas(free, b, k, a);
    OneIn(Merged(free, k, b), a);
    PartIn(free, i, k, j, a);
    hide Splice, Merged, InFree;
  }

  lemma MergedHas(free: FreeList, b: Block, k: nat, a: nat)
    requires k <= |free| && b.Whole() && (k > 0 ==> free[k - 1].Whole()) && (k < |free| ==> free[k].Whole())
    ensures
      var f := k > 0 && Backward(free, k, b) && free[k - 1].Has(a);
      var g := k < |free| && Forward(free, k, b) && free[k].Has(a);
      (Merged(free, k, b).Has(a) <==> b.Has(a) || f || g) && (f || g ==> InFree(free, a))
  {
  }

  /** A block disjoint from the list sits strictly between its neighbours, touching at most. */
  lemma Neighbours(free: FreeList, b: Block, k: nat)
    requires Canonical(free) && b.Whole() && Apart(free, b) && k == Position(free, b.start)
    ensures forall i :: 0 <= i < k ==> free[i].End() <= b.start
    ensures forall i :: k <= i < |free| ==> b.End() <= free[i].start
    ensures Merged(free, k, b).Whole()
  {
    forall i | 0 <= i < k ensures free[i].End() <= b.start {
      assert b.Has(b.start) && !InFree(free, b.start);
      assert !free[i].Has(b.start);
    }
    forall i | k <= i < |free| ensures b.End() <= free[i].start {
      assert free[i].Has(free[i].start);
      assert InFree(free, free[i].start) && !b.Has(free[i].start);
      if i > k {
        assert free[k].End() < free[i].start;
      }
    }
    MergedWhole(free, b, k);
  }

  lemma MergedWhole(free: FreeList, b: Block, k: nat)
    requires k <= |free| && b.Whole() && (k > 0 ==> free[k - 1].Whole()) && (k < |free| ==> free[k].Whole())
    ensures Merged(free, k, b).Whole()
    ensures Merged(free, k, b).size ==
              (if Backward(free, k, b) then free[k - 1].size else 0) + b.size +
              (if Forward(free, k, b) then free[k].size else 0)
  {
    if Backward(free, k, b) {
      Multiples(free[k - 1].size, b.size);
      if Forward(free, k, b) {
        Multiples(free[k - 1].size + b.size, free[k].size);
      }
    } else if Forward(free, k, b) {
      Multiples(b.size, free[k].size);
    }
  }

  lemma SumPart(free: FreeList, i: nat, k: nat, j: nat)
    requires i <= k <= j <= |free| && k <= i + 1 && j <= k + 1
    ensures Sum(free[i..j]) == (if i < k then free[i].size else 0) + (if k < j then free[k].size else 0)
  {
    assert free[i..j] == free[i..k] + free[k..j];
    SumConcat(free[i..k], free[k..j]);
    assert i < k ==> free[i..k] == [free[i]];
    assert k < j ==> free[k..j] == [free[k]];
  }

  lemma PartIn(free: FreeList, i: nat, k: nat, j: nat, a: nat)
    requires i <= k <= j <= |free| && k <= i + 1 && j <= k + 1
    ensures InFree(free[i..j], a) <==> (i < k && free[i].Has(a)) || (k < j && free[k].Has(a))
  {
    assert free[i..j] == free[i..k] + free[k..j];
    InConcat(free[i..k], free[k..j], a);
    if i < k {
      assert free[i..k] == [free[i]];
      OneIn(free[i], a);
    }
    if k < j {
      assert free[k..j] == [free[k]];
      OneIn(free[k], a);
    }
  }

  // --- consequences of canonicity ---

  /** Freeing what was just allocated restores the list exactly. */
  lemma FreeUndoesAlloc(free: FreeList, need: nat, al: nat)
    requires Canonical(free) && Request(need, al) && Allocated(free, need, al).Some?
    ensures var (free', b, _) := Allocated(free, need, al).value; Freed(free', b) == free
  {
    AllocatedOk(free, need, al);
    var (free', b, _) := Allocated(free, need, al).value;
    hide Allocated, Freed, Canonical, Sum;
    FreedOk(free', b);
    CanonicalUnique(Freed(free', b), free);
  }

  /** The order of two frees does not matter. */
  lemma FreesCommute(free: FreeList, b: Block, c: Block)
    requires Canonical(free) && b.Whole() && c.Whole() && Apart(free, b) && Apart(free, c)
    requires forall a: nat :: !(b.Has(a) && c.Has(a))
    ensures Freed(Freed(free, b), c) == Freed(Freed(free, c), b)
  {
    hide Freed, Canonical, Sum;
    FreedOk(free, b);
    FreedOk(free, c);
    FreedOk(Freed(free, b), c);
    FreedOk(Freed(free, c), b);
    CanonicalUnique(Freed(Freed(free, b), c), Freed(Freed(free, c), b));
  }
}
