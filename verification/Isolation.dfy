/**
 Whom an event touches, over whole runs: processes other than the running one keep their records and their memory.
 */
module Isolation {
  import opened Options
  import opened PageTables
  import opened AddressSpaces
  import opened ThreadStates
  import opened Processes
  import RoundRobin
  import Scheduler

  predicate Live(procs: Table, j: nat)
  {
    j < |procs| && procs[j].Some? && !procs[j].value.state.Zombie?
  }

  /** The process in slot `j` is the one it was, with the memory it had; only its state may differ. */
  ghost predicate Kept(procs0: Table, mem0: Mem, procs: Table, mem: Mem, j: nat)
    requires j < |procs0| && procs0[j].Some?
  {
    && j < |procs| && procs[j].Some? && !procs[j].value.state.Zombie?
    && procs[j].value == procs0[j].value.(state := procs[j].value.state)
    && (procs0[j].value.userTable.Some? ==>
          View(mem, procs0[j].value.pageTable) == View(mem0, procs0[j].value.pageTable))
  }

  /** One event touches no live process but the one that runs. */
  ghost predicate Isolated(procs0: Table, mem0: Mem, current0: Option<nat>, procs: Table, mem: Mem)
  {
    forall j: nat :: Live(procs0, j) && current0 != Some(j) ==> Kept(procs0, mem0, procs, mem, j)
  }

  /** An event that touches nobody touches nobody else. */
  lemma IsolatedFrom(procs0: Table, mem0: Mem, current0: Option<nat>, procs: Table, mem: Mem)
    requires Isolated(procs0, mem0, None, procs, mem)
    ensures Isolated(procs0, mem0, current0, procs, mem)
  {
    hide Kept;
  }

  lemma WokenIsolated(procs0: Table, procs: Table, mem: Mem, current: Option<nat>, chan: nat)
    requires |procs| == |procs0|
    requires forall i :: 0 <= i < |procs| && current != Some(i) ==> procs[i] == Scheduler.Woken(procs0[i], chan)
    ensures Isolated(procs0, mem, current, procs, mem)
  {
    hide View;
  }

  /** Has the process in slot `j` rested: is it neither the one that ran at first nor any that was dispatched since? */
  predicate Rests(current0: Option<nat>, dispatched: seq<RoundRobin.Round>, j: nat)
  {
    current0 != Some(j) && forall k :: 0 <= k < |dispatched| ==> dispatched[k].idx != j
  }

  /** Whoever runs ran at first or was dispatched since, and every live process that rested has the memory it had. */
  ghost predicate RestersKept(procs0: Table, mem0: Mem, current0: Option<nat>, dispatched: seq<RoundRobin.Round>,
                              procs: Table, mem: Mem, current: Option<nat>)
  {
    && (forall j: nat :: Live(procs0, j) && Rests(current0, dispatched, j) ==> Kept(procs0, mem0, procs, mem, j))
    && (current.Some? ==> !Rests(current0, dispatched, current.value))
  }

  /** The dispatches of one event: none, unless it is one that picks a thread. */
  predicate Runner(more: seq<RoundRobin.Round>, current0: Option<nat>, current: Option<nat>)
  {
    if more == [] then current.None? || current == current0 else |more| == 1 && current == Some(more[0].idx)
  }

  lemma RestersFirst(procs: Table, mem: Mem, current: Option<nat>)
    ensures RestersKept(procs, mem, current, [], procs, mem, current)
  {
    hide View;
  }

  lemma RestersNext(procs0: Table, mem0: Mem, current0: Option<nat>, dispatched: seq<RoundRobin.Round>,
                    procs1: Table, mem1: Mem, current1: Option<nat>, more: seq<RoundRobin.Round>,
                    procs: Table, mem: Mem, current: Option<nat>)
    requires RestersKept(procs0, mem0, current0, dispatched, procs1, mem1, current1)
    requires Isolated(procs1, mem1, current1, procs, mem) && Runner(more, current1, current)
    ensures RestersKept(procs0, mem0, current0, dispatched + more, procs, mem, current)
  {
    hide View;
    var all := dispatched + more;
    assert forall k :: 0 <= k < |dispatched| ==> all[k] == dispatched[k];
    assert more != [] ==> all[|dispatched|] == more[0];
    forall j: nat | Live(procs0, j) && Rests(current0, all, j) ensures Kept(procs0, mem0, procs, mem, j) {
      assert forall k :: 0 <= k < |dispatched| ==> dispatched[k].idx == all[k].idx;
      assert Rests(current0, dispatched, j);
      assert Kept(procs0, mem0, procs1, mem1, j) && Live(procs1, j);
      assert Kept(procs1, mem1, procs, mem, j);
    }
  }
}
