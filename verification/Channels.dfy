/**
 The bounded channel and its two semaphores (src/sync.rs) under every interleaving of any number of
 threads.  A region under push_off is one step: the check-and-decrement or check-and-sleep of `wait`,
 the increment of `signal`, its `wakeup`, and each push or pop of the buffer.  Between two steps a
 timer interrupt may hand the hart to any other thread that is not asleep.
 */
module Channels {
  import opened Options

  /** Where a thread is.  An asleep thread waits for a wakeup on the semaphore it found at zero. */
  datatype Pc<T> =
    | Idle
    | SendWait(item: T)     // in empty.wait()
    | SendAsleep(item: T)
    | SendPush(item: T)     // has taken a free slot
    | SendInc               // pushed, before full is raised
    | SendWake              // full raised, before its wakeup
    | RecvWait              // in full.wait()
    | RecvAsleep
    | RecvPop               // has taken a filled slot
    | RecvInc(got: T)       // popped, before empty is raised
    | RecvWake(got: T)      // empty raised, before its wakeup

  datatype Call<T> = Send(item: T) | Recv

  datatype State<T> = State(empty: nat, full: nat, buf: seq<T>, threads: seq<Pc<T>>)

  predicate Asleep<T>(pc: Pc<T>) { pc.SendAsleep? || pc.RecvAsleep? }

  function WokenSender<T>(pc: Pc<T>): Pc<T> { if pc.SendAsleep? then SendWait(pc.item) else pc }
  function WokenReceiver<T>(pc: Pc<T>): Pc<T> { if pc.RecvAsleep? then RecvWait else pc }

  function WakeSenders<T>(ts: seq<Pc<T>>): (r: seq<Pc<T>>)
    ensures |r| == |ts| && forall i :: 0 <= i < |ts| ==> r[i] == WokenSender(ts[i])
  {
    if ts == [] then [] else [WokenSender(ts[0])] + WakeSenders(ts[1..])
  }

  function WakeReceivers<T>(ts: seq<Pc<T>>): (r: seq<Pc<T>>)
    ensures |r| == |ts| && forall i :: 0 <= i < |ts| ==> r[i] == WokenReceiver(ts[i])
  {
    if ts == [] then [] else [WokenReceiver(ts[0])] + WakeReceivers(ts[1..])
  }

  /** Thread `i` can take a step: it is not asleep, and its pop would not hit the `expect`. */
  predicate Enabled<T>(s: State<T>, i: nat)
  {
    i < |s.threads| && !Asleep(s.threads[i]) && (s.threads[i].RecvPop? ==> s.buf != [])
  }

  /** One step of thread `i`; an idle thread starts `call`. */
  function Step<T>(s: State<T>, i: nat, call: Call<T>): State<T>
    requires Enabled(s, i)
  {
    var ts := s.threads;
    match ts[i]
    case Idle => s.(threads := ts[i := if call.Send? then SendWait(call.item) else RecvWait])
    case SendWait(x) =>
      if s.empty > 0 then s.(empty := s.empty - 1, threads := ts[i := SendPush(x)])
      else s.(threads := ts[i := SendAsleep(x)])
    case SendPush(x) => s.(buf := s.buf + [x], threads := ts[i := SendInc])
    case SendInc => s.(full := s.full + 1, threads := ts[i := SendWake])
    case SendWake => s.(threads := WakeReceivers(ts)[i := Idle])
    case RecvWait =>
      if s.full > 0 then s.(full := s.full - 1, threads := ts[i := RecvPop])
      else s.(threads := ts[i := RecvAsleep])
    case RecvPop => s.(buf := s.buf[1..], threads := ts[i := RecvInc(s.buf[0])])
    case RecvInc(x) => s.(empty := s.empty + 1, threads := ts[i := RecvWake(x)])
    case RecvWake(x) => s.(threads := WakeSenders(ts)[i := Idle])
  }

  // --- counting threads ---

  datatype Kind = Pushing | Raising | Popping | Returning

  predicate Is<T>(pc: Pc<T>, k: Kind)
  {
    match k
    case Pushing => pc.SendPush?
    case Raising => pc.SendInc?
    case Popping => pc.RecvPop?
    case Returning => pc.RecvInc?
  }

  function Count<T>(ts: seq<Pc<T>>, k: Kind): nat
  {
    if ts == [] then 0 else (if Is(ts[0], k) then 1 else 0) + Count(ts[1..], k)
  }

  lemma {:induction false} CountUpdate<T>(ts: seq<Pc<T>>, i: nat, pc: Pc<T>, k: Kind)
    requires i < |ts|
    ensures Count(ts[i := pc], k) == Count(ts, k) - (if Is(ts[i], k) then 1 else 0) + (if Is(pc, k) then 1 else 0)
  {
    if i == 0 {
      assert ts[i := pc][1..] == ts[1..];
    } else {
      assert ts[i := pc][1..] == ts[1..][i - 1 := pc];
      CountUpdate(ts[1..], i - 1, pc, k);
    }
  }

  /** Waking changes no count. */
  lemma {:induction false} CountSame<T>(ts: seq<Pc<T>>, ts': seq<Pc<T>>, k: Kind)
    requires |ts| == |ts'| && forall i :: 0 <= i < |ts| ==> (Is(ts[i], k) <==> Is(ts'[i], k))
    ensures Count(ts, k) == Count(ts', k)
  {
    if ts != [] {
      CountSame(ts[1..], ts'[1..], k);
    }
  }

  lemma {:induction false} CountPositive<T>(ts: seq<Pc<T>>, k: Kind)
    ensures Count(ts, k) > 0 <==> exists i :: 0 <= i < |ts| && Is(ts[i], k)
  {
    if ts != [] {
      CountPositive(ts[1..], k);
      if i :| 0 <= i < |ts| && Is(ts[i], k) {
        assert i > 0 ==> Is(ts[1..][i - 1], k);
      }
      if j :| 0 <= j < |ts[1..]| && Is(ts[1..][j], k) {
        assert Is(ts[j + 1], k);
      }
    }
  }

  // --- the invariant ---

  predicate SomeSenderAsleep<T>(ts: seq<Pc<T>>) { exists i :: 0 <= i < |ts| && ts[i].SendAsleep? }
  predicate SomeReceiverAsleep<T>(ts: seq<Pc<T>>) { exists i :: 0 <= i < |ts| && ts[i].RecvAsleep? }
  predicate SomeSendWake<T>(ts: seq<Pc<T>>) { exists i :: 0 <= i < |ts| && ts[i].SendWake? }
  predicate SomeRecvWake<T>(ts: seq<Pc<T>>) { exists i :: 0 <= i < |ts| && ts[i].RecvWake? }

  /** Every slot is free and counted, taken by a sender, filled, or emptied and not yet returned; every item
      in the buffer is counted, taken by a receiver, or not yet counted. */
  predicate Counts<T>(capacity: nat, s: State<T>)
  {
    && s.empty + Count(s.threads, Pushing) + |s.buf| + Count(s.threads, Returning) == capacity
    && s.full + Count(s.threads, Popping) + Count(s.threads, Raising) == |s.buf|
  }

  /** A positive count with a sleeper means that a wakeup is on its way. */
  predicate NoLostWakeup<T>(s: State<T>)
  {
    && (s.empty > 0 && SomeSenderAsleep(s.threads) ==> SomeRecvWake(s.threads))
    && (s.full > 0 && SomeReceiverAsleep(s.threads) ==> SomeSendWake(s.threads))
  }

  ghost predicate Inv<T>(capacity: nat, s: State<T>)
  {
    Counts(capacity, s) && NoLostWakeup(s)
  }

  /** A step moves only its own thread from one kind to another. */
  lemma StepCount<T>(s: State<T>, i: nat, call: Call<T>, k: Kind)
    requires Enabled(s, i)
    ensures
      var pc := Step(s, i, call).threads[i];
      Count(Step(s, i, call).threads, k) ==
        Count(s.threads, k) - (if Is(s.threads[i], k) then 1 else 0) + (if Is(pc, k) then 1 else 0)
  {
    var ts, pc := s.threads, Step(s, i, call).threads[i];
    var base := if ts[i].SendWake? then WakeReceivers(ts) else if ts[i].RecvWake? then WakeSenders(ts) else ts;
    assert Step(s, i, call).threads == base[i := pc];
    hide Step, Count;
    CountSame(ts, base, k);
    CountUpdate(base, i, pc, k);
  }

  lemma StepCounts<T>(capacity: nat, s: State<T>, i: nat, call: Call<T>)
    requires Counts(capacity, s) && Enabled(s, i)
    ensures Counts(capacity, Step(s, i, call))
  {
    hide Count;
    StepCount(s, i, call, Pushing);
    StepCount(s, i, call, Raising);
    StepCount(s, i, call, Popping);
    StepCount(s, i, call, Returning);
  }

  lemma StepEmpty<T>(s: State<T>, i: nat, call: Call<T>)
    requires Enabled(s, i) && (s.empty > 0 && SomeSenderAsleep(s.threads) ==> SomeRecvWake(s.threads))
    ensures var s' := Step(s, i, call); s'.empty > 0 && SomeSenderAsleep(s'.threads) ==> SomeRecvWake(s'.threads)
  {
    var s' := Step(s, i, call);
    var ts, ts' := s.threads, s'.threads;
    if s'.empty > 0 && SomeSenderAsleep(ts') {
      var j :| 0 <= j < |ts'| && ts'[j].SendAsleep?;
      if ts[i].RecvInc? {
        assert ts'[i].RecvWake?;
      } else {
        assert ts[j].SendAsleep? && s.empty > 0;
        var k :| 0 <= k < |ts| && ts[k].RecvWake?;
        assert ts'[k].RecvWake?;
      }
    }
  }

  lemma StepFull<T>(s: State<T>, i: nat, call: Call<T>)
    requires Enabled(s, i) && (s.full > 0 && SomeReceiverAsleep(s.threads) ==> SomeSendWake(s.threads))
    ensures var s' := Step(s, i, call); s'.full > 0 && SomeReceiverAsleep(s'.threads) ==> SomeSendWake(s'.threads)
  {
    var s' := Step(s, i, call);
    var ts, ts' := s.threads, s'.threads;
    if s'.full > 0 && SomeReceiverAsleep(ts') {
      var j :| 0 <= j < |ts'| && ts'[j].RecvAsleep?;
      if ts[i].SendInc? {
        assert ts'[i].SendWake?;
      } else {
        assert ts[j].RecvAsleep? && s.full > 0;
        var k :| 0 <= k < |ts| && ts[k].SendWake?;
        assert ts'[k].SendWake?;
      }
    }
  }

  lemma StepWakeups<T>(s: State<T>, i: nat, call: Call<T>)
    requires NoLostWakeup(s) && Enabled(s, i)
    ensures NoLostWakeup(Step(s, i, call))
  {
    hide Step, SomeSenderAsleep, SomeReceiverAsleep, SomeSendWake, SomeRecvWake;
    StepEmpty(s, i, call);
    StepFull(s, i, call);
  }

  lemma StepInv<T>(capacity: nat, s: State<T>, i: nat, call: Call<T>)
    requires Inv(capacity, s) && Enabled(s, i)
    ensures Inv(capacity, Step(s, i, call))
  {
    StepCounts(capacity, s, i, call);
    StepWakeups(s, i, call);
    hide Counts, NoLostWakeup, WakeSenders, WakeReceivers;
  }

  /** A thread that may call later comes into being. */
  lemma AdmitInv<T>(capacity: nat, s: State<T>)
    requires Inv(capacity, s)
    ensures Inv(capacity, s.(threads := s.threads + [Idle]))
  {
    CountIdle(s.threads, Pushing);
    CountIdle(s.threads, Raising);
    CountIdle(s.threads, Popping);
    CountIdle(s.threads, Returning);
    hide Count;
    var ts := s.threads + [Idle];
    forall i | 0 <= i < |s.threads| ensures ts[i] == s.threads[i] {
    }
  }

  lemma {:induction false} CountIdle<T>(ts: seq<Pc<T>>, k: Kind)
    ensures Count(ts + [Idle], k) == Count(ts, k)
  {
    if ts == [] {
      assert ts + [Idle] == [Idle];
    } else {
      assert (ts + [Idle])[1..] == ts[1..] + [Idle];
      CountIdle(ts[1..], k);
    }
  }

  // --- every run ---

  function Init<T>(capacity: nat, n: nat): (s: State<T>)
    ensures |s.threads| == n && forall i :: 0 <= i < n ==> s.threads[i] == Idle
  {
    State(capacity, 0, [], AllIdle(n))
  }

  function AllIdle<T>(n: nat): (ts: seq<Pc<T>>)
    ensures |ts| == n && forall i :: 0 <= i < n ==> ts[i] == Idle
  {
    if n == 0 then [] else [Idle] + AllIdle(n - 1)
  }

  /** A thread takes its next step, with what it would call if idle; or a new thread comes into being. */
  datatype Move<T> = By(thread: nat, call: Call<T>) | Joins

  type Schedule<T> = seq<Move<T>>

  predicate CanMove<T>(s: State<T>, m: Move<T>) { m.By? ==> Enabled(s, m.thread) }

  function Apply<T>(s: State<T>, m: Move<T>): State<T>
    requires CanMove(s, m)
  {
    if m.By? then Step(s, m.thread, m.call) else s.(threads := s.threads + [Idle])
  }

  predicate Runs<T>(s: State<T>, sched: Schedule<T>)
    decreases |sched|
  {
    sched == [] || (CanMove(s, sched[0]) && Runs(Apply(s, sched[0]), sched[1..]))
  }

  function After<T>(s: State<T>, sched: Schedule<T>): State<T>
    requires Runs(s, sched)
    decreases |sched|
  {
    if sched == [] then s else After(Apply(s, sched[0]), sched[1..])
  }

  lemma MoveInv<T>(capacity: nat, s: State<T>, m: Move<T>)
    requires Inv(capacity, s) && CanMove(s, m)
    ensures Inv(capacity, Apply(s, m))
  {
    hide Inv, Step;
    if m.By? {
      StepInv(capacity, s, m.thread, m.call);
    } else {
      AdmitInv(capacity, s);
    }
  }

  lemma {:induction false} RunInv<T>(capacity: nat, s: State<T>, sched: Schedule<T>)
    requires Inv(capacity, s) && Runs(s, sched)
    ensures Inv(capacity, After(s, sched))
    decreases |sched|
  {
    hide Inv, Apply, CanMove;
    if sched != [] {
      MoveInv(capacity, s, sched[0]);
      RunInv(capacity, Apply(s, sched[0]), sched[1..]);
    }
  }

  lemma {:induction false} OneMove<T>(s: State<T>, sched: Schedule<T>, m: Move<T>)
    requires Runs(s, sched) && CanMove(After(s, sched), m)
    ensures Runs(s, sched + [m]) && After(s, sched + [m]) == Apply(After(s, sched), m)
    decreases |sched|
  {
    hide Apply, CanMove;
    if sched == [] {
      assert ([] + [m])[1..] == [] && Runs(Apply(s, m), []);
    } else {
      assert (sched + [m])[1..] == sched[1..] + [m];
      OneMove(Apply(s, sched[0]), sched[1..], m);
    }
  }

  // --- what was sent and what was received, read off the schedule ---

  /** The item in the hands of the thread that pushes in this move, if it does. */
  function Pushes<T>(s: State<T>, m: Move<T>): seq<T>
    requires CanMove(s, m)
  {
    if m.By? && s.threads[m.thread].SendPush? then [s.threads[m.thread].item] else []
  }

  /** The item in the hands of the thread after it has popped in this move, if it has. */
  function Pops<T>(s: State<T>, m: Move<T>): seq<T>
    requires CanMove(s, m)
  {
    if m.By? && s.threads[m.thread].RecvPop? && Apply(s, m).threads[m.thread].RecvInc?
    then [Apply(s, m).threads[m.thread].got] else []
  }

  /** The items sent, in the order of the pushes. */
  function Sent<T>(s: State<T>, sched: Schedule<T>): seq<T>
    requires Runs(s, sched)
    decreases |sched|
  {
    if sched == [] then [] else Pushes(s, sched[0]) + Sent(Apply(s, sched[0]), sched[1..])
  }

  /** The items received, in the order of the pops. */
  function Got<T>(s: State<T>, sched: Schedule<T>): seq<T>
    requires Runs(s, sched)
    decreases |sched|
  {
    if sched == [] then [] else Pops(s, sched[0]) + Got(Apply(s, sched[0]), sched[1..])
  }

  lemma MoveBuf<T>(s: State<T>, m: Move<T>)
    requires CanMove(s, m)
    ensures s.buf + Pushes(s, m) == Pops(s, m) + Apply(s, m).buf
    ensures m.By? && s.threads[m.thread].RecvPop? ==> Pops(s, m) != []
  {
    hide WakeSenders, WakeReceivers;
  }

  /** First in, first out, from any state: what was in the buffer and was sent since is what was received and is still
      in the buffer, in order. */
  lemma {:induction false} Fifo<T>(s: State<T>, sched: Schedule<T>)
    requires Runs(s, sched)
    ensures Got(s, sched) + After(s, sched).buf == s.buf + Sent(s, sched)
    decreases |sched|
  {
    hide Apply, Pushes, Pops, CanMove;
    if sched != [] {
      var m, s', rest := sched[0], Apply(s, sched[0]), sched[1..];
      calc {
        Got(s, sched) + After(s, sched).buf;
        Pops(s, m) + (Got(s', rest) + After(s', rest).buf);
        { Fifo(s', rest); }
        Pops(s, m) + (s'.buf + Sent(s', rest));
        (Pops(s, m) + s'.buf) + Sent(s', rest);
        { MoveBuf(s, m); }
        (s.buf + Pushes(s, m)) + Sent(s', rest);
        s.buf + Sent(s, sched);
      }
    }
  }

  // --- every item is the one of its call ---

  /** The call of thread `i` after a move, and the item of its last pop, `c` and `g` being those before. */
  function NextCall<T>(s: State<T>, m: Move<T>, i: nat, c: Option<Call<T>>): Option<Call<T>>
    requires CanMove(s, m)
  {
    if m.By? && m.thread == i && s.threads[i].Idle? then Some(m.call) else c
  }

  function NextPop<T>(s: State<T>, m: Move<T>, i: nat, g: Option<T>): Option<T>
    requires CanMove(s, m)
  {
    var s' := Apply(s, m);
    if m.By? && m.thread == i && s.threads[i].RecvPop? && s'.threads[i].RecvInc? then Some(s'.threads[i].got) else g
  }

  /** The call that thread `i` is in at the end, `c` being the one at the start. */
  function CallOf<T>(s: State<T>, sched: Schedule<T>, i: nat, c: Option<Call<T>>): Option<Call<T>>
    requires Runs(s, sched)
    decreases |sched|
  {
    if sched == [] then c else CallOf(Apply(s, sched[0]), sched[1..], i, NextCall(s, sched[0], i, c))
  }

  /** The item of the last pop of thread `i`, `g` being the one before. */
  function PoppedBy<T>(s: State<T>, sched: Schedule<T>, i: nat, g: Option<T>): Option<T>
    requires Runs(s, sched)
    decreases |sched|
  {
    if sched == [] then g else PoppedBy(Apply(s, sched[0]), sched[1..], i, NextPop(s, sched[0], i, g))
  }

  /** Inside send a thread carries the item of its call until it pushes it; inside recv it carries, from its pop until
      it returns, the item it popped. */
  predicate Carries<T(==)>(pc: Pc<T>, c: Option<Call<T>>, g: Option<T>)
  {
    match pc
    case Idle => true
    case SendWait(x) => c == Some(Send(x))
    case SendAsleep(x) => c == Some(Send(x))
    case SendPush(x) => c == Some(Send(x))
    case SendInc => c.Some? && c.value.Send?
    case SendWake => c.Some? && c.value.Send?
    case RecvWait => c == Some(Recv)
    case RecvAsleep => c == Some(Recv)
    case RecvPop => c == Some(Recv)
    case RecvInc(x) => c == Some(Recv) && g == Some(x)
    case RecvWake(x) => c == Some(Recv) && g == Some(x)
  }

  predicate CarriesAt<T(==)>(s: State<T>, i: nat, c: Option<Call<T>>, g: Option<T>)
  {
    i < |s.threads| ==> Carries(s.threads[i], c, g)
  }

  lemma MoveCarries<T>(s: State<T>, m: Move<T>, i: nat, c: Option<Call<T>>, g: Option<T>)
    requires CanMove(s, m) && CarriesAt(s, i, c, g)
    ensures CarriesAt(Apply(s, m), i, NextCall(s, m, i, c), NextPop(s, m, i, g))
  {
  }

  lemma {:induction false} RunCarries<T>(s: State<T>, sched: Schedule<T>, i: nat, c: Option<Call<T>>, g: Option<T>)
    requires Runs(s, sched) && CarriesAt(s, i, c, g)
    ensures CarriesAt(After(s, sched), i, CallOf(s, sched, i, c), PoppedBy(s, sched, i, g))
    decreases |sched|
  {
    hide Apply, CarriesAt, NextCall, NextPop;
    if sched != [] {
      MoveCarries(s, sched[0], i, c, g);
      RunCarries(Apply(s, sched[0]), sched[1..], i, NextCall(s, sched[0], i, c), NextPop(s, sched[0], i, g));
    }
  }

  lemma InitInv<T>(capacity: nat, n: nat)
    ensures Inv<T>(capacity, Init(capacity, n))
  {
    var s: State<T> := Init(capacity, n);
    CountPositive(s.threads, Pushing);
    CountPositive(s.threads, Raising);
    CountPositive(s.threads, Popping);
    CountPositive(s.threads, Returning);
  }

  /** After every schedule of any number of threads, old and new: the items received so far followed by the buffer are
      the items sent, in order, and each is the item of its call; the buffer respects its capacity; and a thread about
      to pop finds an item. */
  lemma ChannelCorrect<T>(capacity: nat, n: nat, sched: Schedule<T>)
    requires Runs(Init<T>(capacity, n), sched)
    ensures
      var s0 := Init<T>(capacity, n);
      var s := After(s0, sched);
      && Got(s0, sched) + s.buf == Sent(s0, sched)
      && (forall i: nat :: CarriesAt(s, i, CallOf(s0, sched, i, None), PoppedBy(s0, sched, i, None)))
      && |s.buf| <= capacity
      && NoLostWakeup(s)
      && forall i :: 0 <= i < |s.threads| && s.threads[i].RecvPop? ==> s.buf != []
  {
    var s0 := Init<T>(capacity, n);
    InitInv<T>(capacity, n);
    RunInv(capacity, s0, sched);
    PopFinds(capacity, After(s0, sched));
    hide Apply, NoLostWakeup, Counts;
    Fifo(s0, sched);
    forall i: nat ensures CarriesAt(After(s0, sched), i, CallOf(s0, sched, i, None), PoppedBy(s0, sched, i, None)) {
      RunCarries(s0, sched, i, None, None);
    }
    assert [] + Sent(s0, sched) == Sent(s0, sched);
  }

  lemma PopFinds<T>(capacity: nat, s: State<T>)
    requires Counts(capacity, s)
    ensures |s.buf| <= capacity
    ensures forall i :: 0 <= i < |s.threads| && s.threads[i].RecvPop? ==> s.buf != []
  {
    forall i | 0 <= i < |s.threads| && s.threads[i].RecvPop? ensures s.buf != [] {
      assert Is(s.threads[i], Popping);
      CountPositive(s.threads, Popping);
    }
  }

  // --- the channel never wedges ---

  /** Every thread inside send or recv is asleep. */
  predicate Stuck<T>(s: State<T>)
  {
    forall i :: 0 <= i < |s.threads| ==> s.threads[i].Idle? || Asleep(s.threads[i])
  }

  lemma StuckCounts<T>(s: State<T>, k: Kind)
    requires Stuck(s)
    ensures Count(s.threads, k) == 0
  {
    CountPositive(s.threads, k);
    forall i | 0 <= i < |s.threads| ensures !Is(s.threads[i], k) {
      assert s.threads[i].Idle? || Asleep(s.threads[i]);
    }
  }

  /** If everyone is asleep, sleeping senders mean a full buffer and sleeping receivers an empty one. */
  lemma StuckMeans<T>(capacity: nat, s: State<T>)
    requires Inv(capacity, s) && Stuck(s)
    ensures SomeSenderAsleep(s.threads) ==> |s.buf| == capacity
    ensures SomeReceiverAsleep(s.threads) ==> s.buf == []
  {
    StuckCounts(s, Pushing);
    StuckCounts(s, Raising);
    StuckCounts(s, Popping);
    StuckCounts(s, Returning);
    forall i | 0 <= i < |s.threads| ensures !s.threads[i].SendWake? && !s.threads[i].RecvWake? {
      assert s.threads[i].Idle? || Asleep(s.threads[i]);
    }
  }

  predicate Wedged<T>(s: State<T>)
  {
    Stuck(s) && SomeSenderAsleep(s.threads) && SomeReceiverAsleep(s.threads)
  }

  /** With room for one item, no schedule leads to senders and receivers all asleep on each other. */
  lemma NeverWedges<T>(capacity: nat, n: nat, sched: Schedule<T>)
    requires capacity >= 1 && Runs(Init<T>(capacity, n), sched)
    ensures !Wedged(After(Init<T>(capacity, n), sched))
  {
    InitInv<T>(capacity, n);
    RunInv(capacity, Init<T>(capacity, n), sched);
    NotWedged(capacity, After(Init<T>(capacity, n), sched));
  }

  lemma NotWedged<T>(capacity: nat, s: State<T>)
    requires capacity >= 1 && Inv(capacity, s)
    ensures !Wedged(s)
  {
    if Stuck(s) {
      StuckMeans(capacity, s);
    }
  }

  /** A channel of capacity zero does wedge: one sender and one receiver are enough. */
  lemma ZeroWedges<T>(x: T)
    ensures
      var sched := [By(0, Send(x)), By(1, Recv), By(0, Recv), By(1, Recv)];
      Runs(Init<T>(0, 2), sched) && Wedged(After(Init<T>(0, 2), sched))
  {
    var s0: State<T> := Init(0, 2);
    var s1 := Step(s0, 0, Send(x));
    var s2 := Step(s1, 1, Recv);
    var s3 := Step(s2, 0, Recv);
    var s4 := Step(s3, 1, Recv);
    OneMove(s0, [], By(0, Send(x)));
    assert [] + [By(0, Send(x))] == [By(0, Send(x))];
    OneMove(s0, [By(0, Send(x))], By(1, Recv));
    assert [By(0, Send(x))] + [By(1, Recv)] == [By(0, Send(x)), By(1, Recv)];
    OneMove(s0, [By(0, Send(x)), By(1, Recv)], By(0, Recv));
    assert [By(0, Send(x)), By(1, Recv)] + [By(0, Recv)] == [By(0, Send(x)), By(1, Recv), By(0, Recv)];
    OneMove(s0, [By(0, Send(x)), By(1, Recv), By(0, Recv)], By(1, Recv));
    assert [By(0, Send(x)), By(1, Recv), By(0, Recv)] + [By(1, Recv)] ==
           [By(0, Send(x)), By(1, Recv), By(0, Recv), By(1, Recv)];
    assert s4.threads[0].SendAsleep? && s4.threads[1].RecvAsleep?;
  }

  // --- the channel as the code keeps it ---

  /** The pass over all threads in wakeup. */
  method WakePass<T>(ts: seq<Pc<T>>, senders: bool) returns (r: seq<Pc<T>>)
    ensures r == if senders then WakeSenders(ts) else WakeReceivers(ts)
  {
    r := ts;
    var j := 0;
    while j < |r|
      invariant 0 <= j <= |r| == |ts|
      invariant forall k :: 0 <= k < j ==> r[k] == if senders then WokenSender(ts[k]) else WokenReceiver(ts[k])
      invariant forall k :: j <= k < |ts| ==> r[k] == ts[k]
    {
      r := r[j := if senders then WokenSender(r[j]) else WokenReceiver(r[j])];
      j := j + 1;
    }
    assert r == if senders then WakeSenders(ts) else WakeReceivers(ts);
  }

  /** The shared fields, with each region under push_off as a method run by thread `i`. */
  class Channel<T> {
    const capacity: nat
    var empty: nat
    var full: nat
    var buf: seq<T>
    var threads: seq<Pc<T>>
    /** How many threads there were at first, and every move since. */
    ghost const threads0: nat
    ghost var moves: Schedule<T>

    ghost function Now(): State<T>
      reads this
    {
      State(empty, full, buf, threads)
    }

    ghost predicate Valid()
      reads this
    {
      && Inv(capacity, Now())
      && Runs(Init(capacity, threads0), moves) && Now() == After(Init(capacity, threads0), moves)
    }

    /** One more move, which the channel has made or is about to. */
    ghost method Record(m: Move<T>)
      requires Runs(Init(capacity, threads0), moves) && CanMove(After(Init(capacity, threads0), moves), m)
      modifies `moves
      ensures moves == old(moves) + [m] && Runs(Init(capacity, threads0), moves)
      ensures After(Init(capacity, threads0), moves) == Apply(After(Init(capacity, threads0), old(moves)), m)
    {
      hide Apply, CanMove, Runs, After;
      OneMove(Init(capacity, threads0), moves, m);
      moves := moves + [m];
    }

    constructor (cap: nat, n: nat)
      ensures Valid() && capacity == cap && threads0 == n && Now() == Init(cap, n) && moves == []
    {
      InitInv<T>(cap, n);
      capacity, empty, full, buf, threads := cap, cap, 0, [], AllIdle(n);
      threads0, moves := n, [];
    }

    /** A new thread, which has not called yet. */
    method Admit()
      requires Valid()
      modifies `threads, `moves
      ensures Valid() && threads == old(threads) + [Idle] && moves == old(moves) + [Joins]
    {
      AdmitInv(capacity, Now());
      hide Inv, Runs, After;
      Record(Joins);
      threads := threads + [Idle];
    }

    /** The caller of send or recv arrives. */
    method Arrive(i: nat, call: Call<T>)
      requires Valid() && i < |threads| && threads[i].Idle?
      modifies this
      ensures Valid() && Now() == Step(old(Now()), i, call) && moves == old(moves) + [By(i, call)]
    {
      StepInv(capacity, Now(), i, call);
      hide Inv, Runs, After;
      Record(By(i, call));
      threads := threads[i := if call.Send? then SendWait(call.item) else RecvWait];
    }

    /** One turn of the loop in empty.wait(). */
    method WaitEmpty(i: nat)
      requires Valid() && i < |threads| && threads[i].SendWait?
      modifies this
      ensures Valid() && Now() == Step(old(Now()), i, Recv) && moves == old(moves) + [By(i, Recv)]
    {
      StepInv(capacity, Now(), i, Recv);
      hide Inv, Runs, After;
      Record(By(i, Recv));
      if empty > 0 {
        empty := empty - 1;
        threads := threads[i := SendPush(threads[i].item)];
      } else {
        threads := threads[i := SendAsleep(threads[i].item)];
      }
    }

    /** One turn of the loop in full.wait(). */
    method WaitFull(i: nat)
      requires Valid() && i < |threads| && threads[i].RecvWait?
      modifies this
      ensures Valid() && Now() == Step(old(Now()), i, Recv) && moves == old(moves) + [By(i, Recv)]
    {
      StepInv(capacity, Now(), i, Recv);
      hide Inv, Runs, After;
      Record(By(i, Recv));
      if full > 0 {
        full := full - 1;
        threads := threads[i := RecvPop];
      } else {
        threads := threads[i := RecvAsleep];
      }
    }

    method PushBack(i: nat)
      requires Valid() && i < |threads| && threads[i].SendPush?
      modifies this
      ensures Valid() && Now() == Step(old(Now()), i, Recv) && moves == old(moves) + [By(i, Recv)]
    {
      StepInv(capacity, Now(), i, Recv);
      hide Inv, Runs, After;
      Record(By(i, Recv));
      buf := buf + [threads[i].item];
      threads := threads[i := SendInc];
    }

    /** There is always an item: the `expect` in recv cannot fail. */
    method PopFront(i: nat) returns (x: T)
      requires Valid() && i < |threads| && threads[i].RecvPop?
      modifies this
      ensures old(buf) != [] && x == old(buf)[0] && Valid() && Now() == Step(old(Now()), i, Recv)
      ensures moves == old(moves) + [By(i, Recv)]
    {
      PopFinds(capacity, Now());
      StepInv(capacity, Now(), i, Recv);
      hide Inv, Runs, After;
      Record(By(i, Recv));
      x := buf[0];
      buf := buf[1..];
      threads := threads[i := RecvInc(x)];
    }

    /** The increment in signal. */
    method Raise(i: nat)
      requires Valid() && i < |threads| && (threads[i].SendInc? || threads[i].RecvInc?)
      modifies this
      ensures Valid() && Now() == Step(old(Now()), i, Recv) && moves == old(moves) + [By(i, Recv)]
    {
      StepInv(capacity, Now(), i, Recv);
      hide Inv, Runs, After;
      Record(By(i, Recv));
      if threads[i].SendInc? {
        full := full + 1;
        threads := threads[i := SendWake];
      } else {
        empty := empty + 1;
        threads := threads[i := RecvWake(threads[i].got)];
      }
    }

    /** The wakeup in signal: a pass over all threads. */
    method Wakeup(i: nat)
      requires Valid() && i < |threads| && (threads[i].SendWake? || threads[i].RecvWake?)
      modifies this
      ensures Valid() && Now() == Step(old(Now()), i, Recv) && moves == old(moves) + [By(i, Recv)]
    {
      StepInv(capacity, Now(), i, Recv);
      hide Inv, Runs, After;
      Record(By(i, Recv));
      threads := WakePass(threads, threads[i].RecvWake?);
      threads := threads[i := Idle];
    }
  }
}
