/**
 Demand paging refines an eager heap.  The lazy machine is what `sbrk`, the hardware and
 `service_page_fault` do together (src/proc.rs:551-592, src/trap.rs:146-161): a page appears, zeroed,
 the first time an address below the break touches it.  The eager machine maps every page of
 the heap as soon as `sbrk` grants it and is a plain zero-filled array of bytes.
 */
module DemandPaging {
  import opened Options
  import opened Bytes
  import opened Phys
  import AddressSpaces
  import opened Processes

  datatype Op = Sbrk(delta: nat) | Load(va: nat) | Store(va: nat, byte: nat)
  datatype Out = Value(n: nat) | Stored | Killed

  predicate OpOk(op: Op) { op.Store? ==> op.byte < 256 }

  /** First page past the heap: the break rounded up. */
  function EndPage(brk: nat): nat { (brk + 4095) / 4096 }

  function Break(brk: nat, delta: nat): (nat, Out)
  {
    if brk + delta <= HEAP_MAX then (brk + delta, Value(brk)) else (brk, Value(USIZE_MAX))
  }

  // --- lazy ---

  datatype Lazy = Lazy(brk: nat, pages: map<nat, seq<nat>>)

  /** The heap after a first touch of `va`, or None if the access is fatal. */
  function Touch(h: Lazy, va: nat): Option<Lazy>
  {
    if va / 4096 in h.pages then Some(h)
    else if HEAP_BASE <= va < h.brk then Some(h.(pages := h.pages[va / 4096 := ZEROS]))
    else None
  }

  function LazyStep(h: Lazy, op: Op): (Lazy, Out)
    requires OpOk(op)
  {
    match op
    case Sbrk(delta) => var (brk, out) := Break(h.brk, delta); (h.(brk := brk), out)
    case Load(va) => (match Touch(h, va)
                      case None => (h, Killed)
                      case Some(g) => (g, Value(ByteAt(g.pages[va / 4096], va % 4096))))
    case Store(va, b) => (match Touch(h, va)
                          case None => (h, Killed)
                          case Some(g) =>
                            var page := SetByte(g.pages[va / 4096], va % 4096, b);
                            (g.(pages := g.pages[va / 4096 := page]), Stored))
  }

  // --- eager ---

  datatype Eager = Eager(brk: nat, bytes: map<nat, nat>)

  function Get(bytes: map<nat, nat>, va: nat): nat { if va in bytes then bytes[va] else 0 }

  function EagerStep(h: Eager, op: Op): (Eager, Out)
    requires OpOk(op)
  {
    match op
    case Sbrk(delta) => var (brk, out) := Break(h.brk, delta); (h.(brk := brk), out)
    case Load(va) => (h, if HEAP_BASE <= va < 4096 * EndPage(h.brk) then Value(Get(h.bytes, va)) else Killed)
    case Store(va, b) =>
      if HEAP_BASE <= va < 4096 * EndPage(h.brk) then (h.(bytes := h.bytes[va := b]), Stored) else (h, Killed)
  }

  // --- one step ---

  function LazyByte(h: Lazy, va: nat): nat
  {
    if va / 4096 in h.pages then ByteAt(h.pages[va / 4096], va % 4096) else 0
  }

  /** Same break, same bytes; only pages the eager heap has are mapped. */
  ghost predicate Sim(l: Lazy, e: Eager)
  {
    && l.brk == e.brk && HEAP_BASE <= l.brk <= HEAP_MAX
    && (forall u :: u in l.pages ==> HEAP_VP <= u < EndPage(l.brk) && |l.pages[u]| == 512)
    && (forall va: nat :: LazyByte(l, va) == Get(e.bytes, va))
  }

  /** The only accesses on which the two differ: above the break, in its last page, before that page exists. */
  predicate Slack(l: Lazy, op: Op)
  {
    !op.Sbrk? && l.brk <= op.va < 4096 * EndPage(l.brk) && op.va / 4096 !in l.pages
  }

  lemma TouchByte(l: Lazy, va: nat, a: nat)
    requires Touch(l, va).Some?
    ensures LazyByte(Touch(l, va).value, a) == LazyByte(l, a)
  {
    AddressSpaces.ZeroByte(a % 4096);
  }

  /** A step differs exactly on a slack access (lazy kills, eager does not); otherwise the outcome
      is the same and the heaps stay in step. */
  lemma StepAgrees(l: Lazy, e: Eager, op: Op)
    requires Sim(l, e) && OpOk(op)
    ensures LazyStep(l, op).1 == EagerStep(e, op).1 <==> !Slack(l, op)
    ensures Slack(l, op) ==> LazyStep(l, op).1 == Killed != EagerStep(e, op).1
    ensures !Slack(l, op) ==> Sim(LazyStep(l, op).0, EagerStep(e, op).0)
  {
    if !op.Sbrk? && Touch(l, op.va).Some? {
      var g := Touch(l, op.va).value;
      forall a: nat ensures LazyByte(g, a) == LazyByte(l, a) {
        TouchByte(l, op.va, a);
      }
      assert ByteAt(g.pages[op.va / 4096], op.va % 4096) == LazyByte(g, op.va);
      if op.Store? {
        StoreByte(g, op.va, op.byte);
      }
    }
  }

  lemma StoreByte(g: Lazy, va: nat, b: nat)
    requires va / 4096 in g.pages && |g.pages[va / 4096]| == 512 && b < 256
    ensures
      var h := g.(pages := g.pages[va / 4096 := SetByte(g.pages[va / 4096], va % 4096, b)]);
      forall a: nat :: LazyByte(h, a) == if a == va then b else LazyByte(g, a)
  {
    var h := g.(pages := g.pages[va / 4096 := SetByte(g.pages[va / 4096], va % 4096, b)]);
    forall a: nat ensures LazyByte(h, a) == if a == va then b else LazyByte(g, a) {
      if a / 4096 == va / 4096 {
        SetByteGet(g.pages[va / 4096], va % 4096, b, a % 4096);
      }
    }
  }

  // --- whole runs ---

  predicate OpsOk(ops: seq<Op>) { forall i :: 0 <= i < |ops| ==> OpOk(ops[i]) }

  /** What a program observes, up to and including the access that kills it. */
  function LazyRun(l: Lazy, ops: seq<Op>): seq<Out>
    requires OpsOk(ops)
    decreases |ops|
  {
    if ops == [] then [] else
    var (l', out) := LazyStep(l, ops[0]);
    [out] + if out.Killed? then [] else LazyRun(l', ops[1..])
  }

  function EagerRun(e: Eager, ops: seq<Op>): seq<Out>
    requires OpsOk(ops)
    decreases |ops|
  {
    if ops == [] then [] else
    var (e', out) := EagerStep(e, ops[0]);
    [out] + if out.Killed? then [] else EagerRun(e', ops[1..])
  }

  /** No access of the (lazy) run is a slack access. */
  predicate NoSlack(l: Lazy, ops: seq<Op>)
    requires OpsOk(ops)
    decreases |ops|
  {
    ops == [] ||
    (!Slack(l, ops[0]) && (LazyStep(l, ops[0]).1.Killed? || NoSlack(LazyStep(l, ops[0]).0, ops[1..])))
  }

  /** Demand paging is invisible to a program if and only if the program never reaches above its
      break into a page it has not touched. */
  lemma {:induction false} RunsAgree(l: Lazy, e: Eager, ops: seq<Op>)
    requires Sim(l, e) && OpsOk(ops)
    ensures LazyRun(l, ops) == EagerRun(e, ops) <==> NoSlack(l, ops)
    decreases |ops|
  {
    if ops != [] {
      StepAgrees(l, e, ops[0]);
      var (l', out) := LazyStep(l, ops[0]);
      var (e', out') := EagerStep(e, ops[0]);
      if Slack(l, ops[0]) {
        assert LazyRun(l, ops)[0] == out && EagerRun(e, ops)[0] == out';
      } else if !out.Killed? {
        RunsAgree(l', e', ops[1..]);
        assert LazyRun(l, ops)[1..] == LazyRun(l', ops[1..]);
        assert EagerRun(e, ops)[1..] == EagerRun(e', ops[1..]);
      }
    }
  }

  /** In particular for programs that stay below their break. */
  predicate BelowBreak(brk: nat, ops: seq<Op>)
    decreases |ops|
  {
    ops == [] ||
    match ops[0]
    case Sbrk(delta) => BelowBreak(Break(brk, delta).0, ops[1..])
    case _ => HEAP_BASE <= ops[0].va < brk && BelowBreak(brk, ops[1..])
  }

  lemma {:induction false} BelowBreakNoSlack(l: Lazy, ops: seq<Op>)
    requires OpsOk(ops) && BelowBreak(l.brk, ops)
    ensures NoSlack(l, ops)
    decreases |ops|
  {
    if ops != [] {
      BelowBreakNoSlack(LazyStep(l, ops[0]).0, ops[1..]);
    }
  }

  const EMPTY_LAZY := Lazy(HEAP_BASE, map[])
  const EMPTY_EAGER := Eager(HEAP_BASE, map[])

  /** A new process: from an empty heap, every program that stays below its break observes the
      eager zero-filled heap and is never killed. */
  lemma DemandPagingRefinesEager(ops: seq<Op>)
    requires OpsOk(ops) && BelowBreak(HEAP_BASE, ops)
    ensures LazyRun(EMPTY_LAZY, ops) == EagerRun(EMPTY_EAGER, ops)
    ensures |LazyRun(EMPTY_LAZY, ops)| == |ops| && Killed !in LazyRun(EMPTY_LAZY, ops)
  {
    BelowBreakNoSlack(EMPTY_LAZY, ops);
    RunsAgree(EMPTY_LAZY, EMPTY_EAGER, ops);
    NeverKilled(EMPTY_LAZY, ops);
  }

  lemma {:induction false} NeverKilled(l: Lazy, ops: seq<Op>)
    requires OpsOk(ops) && BelowBreak(l.brk, ops)
    ensures |LazyRun(l, ops)| == |ops| && Killed !in LazyRun(l, ops)
    decreases |ops|
  {
    if ops != [] {
      NeverKilled(LazyStep(l, ops[0]).0, ops[1..]);
    }
  }

  // --- what sbrk grants ---

  /** sbrk refuses exactly what does not fit under 0x6000_0000.  Otherwise the program may access just the `delta` bytes
      from the returned address in addition to what it could access before, and they read as zero in a new page. */
  lemma SbrkGrants(l: Lazy, delta: nat, va: nat)
    requires HEAP_BASE <= l.brk <= HEAP_MAX
    ensures
      var (l', out) := LazyStep(l, Sbrk(delta));
      var before, after := LazyStep(l, Load(va)).1, LazyStep(l', Load(va)).1;
      && out.Value?
      && (out.n == 0xffff_ffff_ffff_ffff <==> 0x6000_0000 < l.brk + delta)
      && (out.n == 0xffff_ffff_ffff_ffff ==> l' == l)
      && (out.n < 0xffff_ffff_ffff_ffff ==>
            && (after != Killed <==> before != Killed || out.n <= va < out.n + delta)
            && (before != Killed ==> after == before)
            && (after != before && va / 4096 !in l.pages ==> after == Value(0)))
  {
    AddressSpaces.ZeroByte(va % 4096);
  }

  /** Bytes granted by two calls of the same run do not overlap. */
  lemma {:induction false} GrantsApart(l: Lazy, ops: seq<Op>, i: nat, j: nat)
    requires OpsOk(ops) && l.brk <= HEAP_MAX
    requires i < j < |ops| && j < |LazyRun(l, ops)| && ops[i].Sbrk? && ops[j].Sbrk?
    ensures
      match (LazyRun(l, ops)[i], LazyRun(l, ops)[j])
      case (Value(r), Value(t)) =>
        r < 0xffff_ffff_ffff_ffff && t < 0xffff_ffff_ffff_ffff ==> l.brk <= r && r + ops[i].delta <= t
      case _ => false
    decreases |ops|
  {
    var l' := LazyStep(l, ops[0]).0;
    if i > 0 {
      GrantsApart(l', ops[1..], i - 1, j - 1);
    } else {
      GrantAfter(l', ops[1..], j - 1);
    }
  }

  lemma {:induction false} GrantAfter(l: Lazy, ops: seq<Op>, j: nat)
    requires OpsOk(ops) && l.brk <= HEAP_MAX
    requires j < |ops| && j < |LazyRun(l, ops)| && ops[j].Sbrk?
    ensures LazyRun(l, ops)[j].Value? && l.brk <= LazyRun(l, ops)[j].n
    decreases |ops|
  {
    if j > 0 {
      GrantAfter(LazyStep(l, ops[0]).0, ops[1..], j - 1);
    }
  }

  /** The slack is real: growing the heap by one byte and reading the second byte of its page kills
      the process, although the page is granted. */
  lemma SlackExample()
    ensures var ops := [Sbrk(1), Load(HEAP_BASE + 1)];
            && LazyRun(EMPTY_LAZY, ops) == [Value(HEAP_BASE), Killed]
            && EagerRun(EMPTY_EAGER, ops) == [Value(HEAP_BASE), Value(0)]
  {
    var l1 := LazyStep(EMPTY_LAZY, Sbrk(1)).0;
    assert LazyRun(l1, [Load(HEAP_BASE + 1)]) == [Killed];
    assert [Sbrk(1), Load(HEAP_BASE + 1)][1..] == [Load(HEAP_BASE + 1)];
    var e1 := EagerStep(EMPTY_EAGER, Sbrk(1)).0;
    assert EagerRun(e1, [Load(HEAP_BASE + 1)]) == [Value(0)];
  }
}
