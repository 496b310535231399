/**
 The process table as the machine in Waiting sees it: the same threads, with the reason for which each of them sleeps
 where the program keeps only the channel.  Every operation on the table is a step of that machine.
 */
module Mirroring {
  import opened Options
  import opened ThreadStates
  import opened Processes
  import Scheduler
  import Sleepers
  import Waiting

  predicate StatusIs(w: Waiting.Kernel, a: Waiting.Status, b: State)
  {
    match b
    case Runnable => a.Ready?
    case Running => a.Running?
    case Zombie => a.Zombie?
    case Sleeping(c) => a.Asleep? && Waiting.Chan(w, a.why) == c
  }

  predicate SlotIs(w: Waiting.Kernel, a: Option<Waiting.Thread>, b: Option<Process>)
  {
    match (a, b)
    case (None, None) => true
    case (Some(t), Some(p)) => t.pid == p.pid && StatusIs(w, t.status, p.state)
    case _ => false
  }

  predicate Mirrors(w: Waiting.Kernel, procs: Table, current: Option<nat>)
  {
    && |w.procs| == |procs| && w.current == current
    && forall i :: 0 <= i < |procs| ==> SlotIs(w, w.procs[i], procs[i])
  }

  lemma MirrorPlace(w: Waiting.Kernel, procs: Table, current: Option<nat>, p: Process)
    requires Mirrors(w, procs, current) && p.pid in w.pending && p.state.Runnable?
    ensures
      var s := Waiting.Publish(p.pid, FirstFree(procs));
      Waiting.Enabled(w, s) && Mirrors(Waiting.Do(w, s), Place(procs, p), current)
  {
    var i := FirstFree(procs);
    forall j | 0 <= j <= i && j < |procs| ensures w.procs[j].Some? <==> procs[j].Some? {
      assert SlotIs(w, w.procs[j], procs[j]);
    }
    var w' := Waiting.Do(w, Waiting.Publish(p.pid, i));
    hide FirstFree;
    forall j | 0 <= j < |Place(procs, p)| ensures SlotIs(w', w'.procs[j], Place(procs, p)[j]) {
      if j != i {
        assert SlotIs(w, w.procs[j], procs[j]);
      }
    }
  }

  lemma MirrorTake(w: Waiting.Kernel, procs: Table, current: Option<nat>)
    requires Mirrors(w, procs, current)
    ensures Mirrors(Waiting.Do(w, Waiting.TakePid), procs, current)
  {
    var w' := Waiting.Do(w, Waiting.TakePid);
    forall j | 0 <= j < |procs| ensures SlotIs(w', w'.procs[j], procs[j]) {
      assert SlotIs(w, w.procs[j], procs[j]);
    }
  }

  lemma MirrorFork(w: Waiting.Kernel, procs: Table, current: Option<nat>, p: Process)
    requires Mirrors(w, procs, current) && p.pid == w.nextPid && p.pid !in w.pending && p.state.Runnable?
    ensures Waiting.Enabled(w, Waiting.TakePid)
    ensures
      var w1, s := Waiting.Do(w, Waiting.TakePid), Waiting.Publish(p.pid, FirstFree(procs));
      && Waiting.Enabled(w1, s)
      && var w2 := Waiting.Do(w1, s);
         Mirrors(w2, Place(procs, p), current) && w2 == w.(procs := w2.procs, nextPid := w.nextPid + 1)
  {
    hide FirstFree;
    MirrorTake(w, procs, current);
    MirrorPlace(Waiting.Do(w, Waiting.TakePid), procs, current, p);
  }

  lemma MirrorLeave(w: Waiting.Kernel, procs: Table, current: Option<nat>, a: Waiting.Status, b: State)
    requires Mirrors(w, procs, current) && current.Some? && current.value < |procs|
    requires procs[current.value].Some?
    requires StatusIs(w, a, b)
    ensures w.Ok() && w.current.Some? && w.On(w.current.value)
    ensures Mirrors(w.Leave(a), procs[current.value := Some(procs[current.value].value.(state := b))], None)
  {
    var c := current.value;
    assert SlotIs(w, w.procs[c], procs[c]);
    var w', procs' := w.Leave(a), procs[c := Some(procs[c].value.(state := b))];
    forall j | 0 <= j < |procs'| ensures SlotIs(w', w'.procs[j], procs'[j]) {
      assert SlotIs(w, w.procs[j], procs[j]);
    }
  }

  lemma MirrorWoken(w: Waiting.Kernel, procs: Table, procs': Table, current: Option<nat>, chan: nat)
    requires Mirrors(w, procs, current) && |procs'| == |procs|
    requires forall i :: 0 <= i < |procs| ==> procs'[i] == Scheduler.Woken(procs[i], chan)
    ensures Mirrors(Waiting.Woken(w, chan), procs', current)
  {
    var w' := Waiting.Woken(w, chan);
    forall j | 0 <= j < |procs'| ensures SlotIs(w', w'.procs[j], procs'[j]) {
      assert SlotIs(w, w.procs[j], procs[j]);
    }
  }

  /** The same, by a handler that first changes the clock or the ring. */
  lemma MirrorWakes(w: Waiting.Kernel, w1: Waiting.Kernel, procs: Table, procs': Table, current: Option<nat>,
                    chan: nat)
    requires Mirrors(w, procs, current) && |procs'| == |procs|
    requires w1 == w.(ticks := w1.ticks, ring := w1.ring)
    requires forall i :: 0 <= i < |procs| ==> procs'[i] == Scheduler.Woken(procs[i], chan)
    ensures Mirrors(Waiting.Woken(w1, chan), procs', current)
  {
    forall i | 0 <= i < |procs| ensures SlotIs(w1, w1.procs[i], procs[i]) {
      assert SlotIs(w, w.procs[i], procs[i]);
    }
    hide SlotIs;
    MirrorWoken(w1, procs, procs', current, chan);
  }

  lemma MirrorExit(w: Waiting.Kernel, procs: Table, procs': Table, current: Option<nat>)
    requires Mirrors(w, procs, current) && current.Some? && current.value < |procs| == |procs'|
    requires procs[current.value].Some?
    requires procs[current.value].value.state.Running?
    requires forall i :: 0 <= i < |procs| ==>
               procs'[i] ==
                 if i == current.value then Some(procs[i].value.(state := Zombie))
                 else Scheduler.Woken(procs[i], EXIT_CHAN)
    ensures Waiting.Enabled(w, Waiting.Exit) && Mirrors(Waiting.Do(w, Waiting.Exit), procs', None)
  {
    var c := current.value;
    assert SlotIs(w, w.procs[c], procs[c]);
    var w' := Waiting.Do(w, Waiting.Exit);
    forall j | 0 <= j < |procs'| ensures SlotIs(w', w'.procs[j], procs'[j]) {
      assert SlotIs(w, w.procs[j], procs[j]);
    }
  }

  lemma MirrorDispatch(w: Waiting.Kernel, procs: Table, i: nat)
    requires Mirrors(w, procs, None) && i < |procs| && procs[i].Some? && procs[i].value.state.Runnable?
    ensures
      var s := Waiting.Dispatch(i);
      && Waiting.Enabled(w, s)
      && Mirrors(Waiting.Do(w, s), procs[i := Some(procs[i].value.(state := Running))], Some(i))
  {
    assert SlotIs(w, w.procs[i], procs[i]);
    var w', procs' := Waiting.Do(w, Waiting.Dispatch(i)), procs[i := Some(procs[i].value.(state := Running))];
    forall j | 0 <= j < |procs'| ensures SlotIs(w', w'.procs[j], procs'[j]) {
      assert SlotIs(w, w.procs[j], procs[j]);
    }
  }

  lemma MirrorReap(w: Waiting.Kernel, procs: Table, i: nat)
    requires Mirrors(w, procs, None) && i < |procs| && Scheduler.IsZombie(procs[i])
    ensures Waiting.Enabled(w, Waiting.Reap(i))
    ensures Mirrors(Waiting.Do(w, Waiting.Reap(i)), procs[i := None], None)
  {
    assert SlotIs(w, w.procs[i], procs[i]);
    var w' := Waiting.Do(w, Waiting.Reap(i));
    forall j | 0 <= j < |procs| ensures SlotIs(w', w'.procs[j], procs[i := None][j]) {
      assert SlotIs(w, w.procs[j], procs[j]);
    }
  }

  /** Changes that are not about pids or states do not show. */
  lemma MirrorRecord(w: Waiting.Kernel, procs: Table, current: Option<nat>, i: nat, p: Process)
    requires Mirrors(w, procs, current) && i < |procs| && procs[i].Some?
    requires p.pid == procs[i].value.pid && p.state == procs[i].value.state
    ensures Mirrors(w, procs[i := Some(p)], current)
  {
    forall j | 0 <= j < |procs| ensures SlotIs(w, w.procs[j], procs[i := Some(p)][j]) {
      assert SlotIs(w, w.procs[j], procs[j]);
    }
  }

  lemma MirrorAlive(w: Waiting.Kernel, procs: Table, current: Option<nat>, pid: nat)
    requires Mirrors(w, procs, current)
    ensures Waiting.Alive(w, pid) <==> Sleepers.AlivePid(procs, pid)
  {
    forall i | 0 <= i < |procs| ensures SlotIs(w, w.procs[i], procs[i]) {
    }
    if Waiting.Alive(w, pid) {
      var i :| 0 <= i < |w.procs| && w.procs[i].Some? && w.procs[i].value.pid == pid &&
          !w.procs[i].value.status.Zombie?;
      assert procs[i].Some? && procs[i].value.pid == pid && !procs[i].value.state.Zombie?;
    }
    if Sleepers.AlivePid(procs, pid) {
      var i :| 0 <= i < |procs| && procs[i].Some? && procs[i].value.pid == pid && !procs[i].value.state.Zombie?;
      assert w.procs[i].Some? && w.procs[i].value.pid == pid && !w.procs[i].value.status.Zombie?;
    }
  }

  /** The pid of a zombie is dead for good. */
  lemma MirrorGone(w: Waiting.Kernel, procs: Table, current: Option<nat>, j: nat)
    requires Mirrors(w, procs, current) && Waiting.Inv(w) && j < |procs| && Scheduler.IsZombie(procs[j])
    ensures Waiting.Gone(w, procs[j].value.pid)
  {
    assert SlotIs(w, w.procs[j], procs[j]);
    var pid := procs[j].value.pid;
    assert w.On(j) && w.procs[j].value.pid == pid;
  }
}
