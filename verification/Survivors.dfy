/**
 What a process has seen of its heap, over any run of the kernel.  Its own events, wherever they lie among those of all
 the others, are a program of the machines in DemandPaging; if it was not killed, the heap it saw is the eager one.
 */
module Survivors {
  import opened Options
  import opened Bytes
  import opened Phys
  import opened AddressSpaces
  import opened Sv39
  import opened Processes
  import opened DemandPaging
  import opened UserAccess
  import opened Events

  /** The heap operation an event is, if it is one. */
  function OpOf(e: Event): (op: Option<Op>)
    ensures op.Some? ==> OpOk(op.value)
  {
    match e
    case Sbrk(delta) => Some(Op.Sbrk(delta))
    case Load(va) => if HEAP_BASE <= va < HEAP_MAX then Some(Op.Load(va)) else None
    case Store(va, b) => if HEAP_BASE <= va < HEAP_MAX && b < 256 then Some(Op.Store(va, b)) else None
    case _ => None
  }

  function OutOf(out: Outcome): Out
  {
    match out
    case Access(o) => o
    case Break(r) => Value(r)
    case _ => Stored
  }

  /** The heap operations of slot `j`, in order. */
  function OpsOf(log: seq<Entry>, j: nat): (ops: seq<Op>)
    ensures OpsOk(ops)
  {
    if log == [] then [] else
    var x := log[|log| - 1];
    OpsOf(log[..|log| - 1], j) + if x.who == Some(j) && OpOf(x.event).Some? then [OpOf(x.event).value] else []
  }

  /** What these operations told their process. */
  function OutsOf(log: seq<Entry>, j: nat): seq<Out>
  {
    if log == [] then [] else
    var x := log[|log| - 1];
    OutsOf(log[..|log| - 1], j) + if x.who == Some(j) && OpOf(x.event).Some? then [OutOf(x.out)] else []
  }

  /** The process in slot `j` replaced no image and had the kernel write nothing into its memory. */
  predicate HeapOnly(log: seq<Entry>, j: nat)
  {
    forall k :: 0 <= k < |log| && log[k].who == Some(j) ==> !log[k].event.Exec? && !log[k].event.CopyOut?
  }

  predicate HeapSpace(s: Space) { HeapOk(s.view) && HEAP_BASE <= s.brk <= HEAP_MAX }

  function Heap(s: Space): Lazy { HeapOf(s.view, s.brk) }

  // --- one event ---

  lemma SbrkStep(s: Space, delta: nat)
    requires HeapSpace(s)
    ensures
      var s' := Effect(Event.Sbrk(delta), s);
      && HeapSpace(s')
      && LazyStep(Heap(s), Op.Sbrk(delta)) == (Heap(s'), OutOf(Observes(Event.Sbrk(delta), s)))
  {
  }

  lemma LoadStep(s: Space, va: nat)
    requires HeapSpace(s) && Reaches(s, va, Access.Load)
    ensures
      var s' := Effect(Event.Load(va), s);
      && HeapSpace(s')
      && if HEAP_BASE <= va < HEAP_MAX
         then LazyStep(Heap(s), Op.Load(va)) == (Heap(s'), OutOf(Observes(Event.Load(va), s)))
         else Heap(s') == Heap(s)
  {
    if HEAP_BASE <= va < HEAP_MAX {
      LazyLoad(s.view, Fresh(1, 0).(heapBrk := s.brk), va);
    }
  }

  lemma StoreStep(s: Space, va: nat, b: nat)
    requires HeapSpace(s) && Reaches(s, va, Access.Store) && b < 256
    ensures
      var s' := Effect(Event.Store(va, b), s);
      && HeapSpace(s')
      && if HEAP_BASE <= va < HEAP_MAX
         then LazyStep(Heap(s), Op.Store(va, b)) == (Heap(s'), OutOf(Observes(Event.Store(va, b), s)))
         else Heap(s') == Heap(s)
  {
    hide SetByte;
    var s' := Effect(Event.Store(va, b), s);
    if HEAP_BASE <= va < HEAP_MAX {
      LazyStore(s.view, Fresh(1, 0).(heapBrk := s.brk), va, b);
    } else {
      assert Heap(s').pages == Heap(s).pages;
    }
  }

  /** An event of a process that lives on is a step of the eager heap, or none. */
  lemma EventStep(s: Space, x: Event, out: Outcome, e: Eager)
    requires HeapSpace(s) && Sim(Heap(s), e) && !x.Exec? && !x.CopyOut?
    requires out == Observes(x, s) && out != Outcome.Access(Killed)
    ensures
      var s' := Effect(x, s);
      && HeapSpace(s')
      && match OpOf(x)
         case None => Sim(Heap(s'), e)
         case Some(op) =>
           && OutOf(out) == EagerStep(e, op).1 && OutOf(out) != Killed
           && Sim(Heap(s'), EagerStep(e, op).0)
  {
    hide Sim, EagerStep, LazyStep, HeapOf, HeapOk, Faulted, WithByte;
    if x.Sbrk? {
      SbrkStep(s, x.delta);
    } else if x.Load? {
      LoadStep(s, x.va);
    } else if x.Store? && x.byte < 256 {
      StoreStep(s, x.va, x.byte);
    }
    if OpOf(x).Some? {
      var op := OpOf(x).value;
      StepAgrees(Heap(s), e, op);
    }
  }

  // --- whole runs ---

  function EagerEnd(e: Eager, ops: seq<Op>): Eager
    requires OpsOk(ops)
    decreases |ops|
  {
    if ops == [] then e else EagerEnd(EagerStep(e, ops[0]).0, ops[1..])
  }

  lemma {:induction false} EagerMore(e: Eager, ops: seq<Op>, op: Op)
    requires OpsOk(ops) && OpOk(op) && Killed !in EagerRun(e, ops)
    ensures OpsOk(ops + [op]) && EagerEnd(e, ops + [op]) == EagerStep(EagerEnd(e, ops), op).0
    ensures EagerRun(e, ops + [op]) == EagerRun(e, ops) + [EagerStep(EagerEnd(e, ops), op).1]
    decreases |ops|
  {
    hide EagerStep;
    if ops == [] {
      assert ([] + [op])[1..] == [];
      assert EagerRun(EagerStep(e, op).0, []) == [];
    } else {
      var (e', out) := EagerStep(e, ops[0]);
      assert EagerRun(e, ops)[0] == out;
      assert EagerRun(e, ops)[1..] == EagerRun(e', ops[1..]);
      EagerMore(e', ops[1..], op);
      assert (ops + [op])[1..] == ops[1..] + [op];
    }
  }

  /** The process in slot `j` has been told by its heap what the eager heap tells, and was not killed. */
  ghost predicate Sees(s: Space, log: seq<Entry>, j: nat, e: Eager)
  {
    && OutsOf(log, j) == EagerRun(e, OpsOf(log, j)) && Killed !in OutsOf(log, j)
    && HeapSpace(Replay(s, log, j)) && Sim(Heap(Replay(s, log, j)), EagerEnd(e, OpsOf(log, j)))
  }

  lemma OpsMore(s: Space, log: seq<Entry>, j: nat, x: Entry)
    ensures
      var op := if x.who == Some(j) then OpOf(x.event) else None;
      && OpsOf(log + [x], j) == (if op.Some? then OpsOf(log, j) + [op.value] else OpsOf(log, j))
      && OutsOf(log + [x], j) == (if op.Some? then OutsOf(log, j) + [OutOf(x.out)] else OutsOf(log, j))
    ensures Replay(s, log + [x], j) ==
              if x.who == Some(j) then Effect(x.event, Replay(s, log, j)) else Replay(s, log, j)
  {
    hide Effect, OpOf, OutOf;
    assert (log + [x])[..|log|] == log;
  }

  lemma SeesMore(s: Space, log: seq<Entry>, j: nat, e: Eager, x: Entry)
    requires Sees(s, log, j, e)
    requires x.who == Some(j) ==>
               && !x.event.Exec? && !x.event.CopyOut?
               && x.out == Observes(x.event, Replay(s, log, j)) && x.out != Outcome.Access(Killed)
    ensures Sees(s, log + [x], j, e)
  {
    hide Sim, HeapSpace, Effect, Observes, Heap, EagerStep, EagerRun, EagerEnd, OpOf, OutOf, OpsOf, OutsOf, Replay;
    OpsMore(s, log, j, x);
    if x.who == Some(j) {
      EventStep(Replay(s, log, j), x.event, x.out, EagerEnd(e, OpsOf(log, j)));
      if OpOf(x.event).Some? {
        EagerMore(e, OpsOf(log, j), OpOf(x.event).value);
      }
    }
  }

  lemma SeesNone(s: Space, j: nat, e: Eager)
    requires HeapSpace(s) && Sim(Heap(s), e)
    ensures Sees(s, [], j, e)
  {
    hide HeapSpace, Sim, Heap;
  }

  /** On every run of the kernel, whatever the others did in between: a process that was not killed has been told by its
      heap exactly what an eager, zero-filled heap tells. */
  lemma {:induction false} SurvivorSeesEager(s: Space, log: seq<Entry>, j: nat, e: Eager)
    requires HeapSpace(s) && Sim(Heap(s), e) && Explained(s, log, j) && HeapOnly(log, j)
    ensures Sees(s, log, j, e)
  {
    hide HeapSpace, Explained, HeapOnly, Sim, Observes, Sees, Replay, Effect, OpsOf, OutsOf;
    if log == [] {
      SeesNone(s, j, e);
    } else {
      var n := |log| - 1;
      Rest(s, log, j);
      SurvivorSeesEager(s, log[..n], j, e);
      SeesMore(s, log[..n], j, e, log[n]);
      assert log[..n] + [log[n]] == log;
    }
  }

  lemma Rest(s: Space, log: seq<Entry>, j: nat)
    requires log != [] && Explained(s, log, j) && HeapOnly(log, j)
    ensures
      var rest, x := log[..|log| - 1], log[|log| - 1];
      && Explained(s, rest, j) && HeapOnly(rest, j)
      && (x.who == Some(j) ==>
            && !x.event.Exec? && !x.event.CopyOut?
            && x.out == Observes(x.event, Replay(s, rest, j)) && x.out != Outcome.Access(Killed))
  {
    hide Observes;
    var rest := log[..|log| - 1];
    forall k | 0 <= k < |rest| ensures rest[..k] == log[..k] {
    }
  }
}
