/**
 The round-robin scan of the scheduler loop (src/proc.rs:643-658) and how long it can make a
 runnable thread wait.
 */
module RoundRobin {
  import opened Options

  /** Is slot i ready to run? */
  type Ready = seq<bool>

  /** How many slots the scan passes before it looks at slot j. */
  function Distance(n: nat, next: nat, j: nat): (d: nat)
    requires j < n && next <= n
    ensures d < n
  {
    if next <= j then j - next else if next == n then j else j + n - next
  }

  /** `idx` is what the scan from `next` finds. */
  ghost predicate IsPick(ready: Ready, next: nat, picked: Option<nat>)
    requires next <= |ready|
  {
    match picked
    case None => forall j :: 0 <= j < |ready| ==> !ready[j]
    case Some(idx) =>
      && idx < |ready| && ready[idx]
      && forall j :: 0 <= j < |ready| && ready[j] ==> Distance(|ready|, next, idx) <= Distance(|ready|, next, j)
  }

  /** The scan loop. */
  method Scan(ready: Ready, next: nat) returns (picked: Option<nat>)
    requires next <= |ready|
    ensures IsPick(ready, next, picked)
  {
    var n := |ready|;
    var i := 0;
    while i < n
      invariant 0 <= i <= n
      invariant forall j :: 0 <= j < n && Distance(n, next, j) < i ==> !ready[j]
    {
      var idx := (next + i) % n;
      ScanSlot(n, next, i);
      if ready[idx] {
        return Some(idx);
      }
      forall j | 0 <= j < n && Distance(n, next, j) == i ensures j == idx {
        DistanceInjective(n, next, j, idx);
      }
      i := i + 1;
    }
    return None;
  }

  lemma ScanSlot(n: nat, next: nat, i: nat)
    requires i < n && next <= n
    ensures (next + i) % n < n && Distance(n, next, (next + i) % n) == i
  {
    if next + i < n {
      ModSmall(next + i, n);
    } else {
      ModOnce(next + i - n, n);
    }
  }

  lemma ModSmall(x: nat, n: nat)
    requires x < n
    ensures x % n == x
  {
  }

  lemma ModOnce(r: nat, n: nat)
    requires r < n
    ensures (n + r) % n == r
  {
  }

  lemma DistanceInjective(n: nat, next: nat, i: nat, j: nat)
    requires i < n && j < n && next <= n && Distance(n, next, i) == Distance(n, next, j)
    ensures i == j
  {
  }

  /** The pick is unique. */
  lemma PickUnique(ready: Ready, next: nat, p: Option<nat>, q: Option<nat>)
    requires next <= |ready| && IsPick(ready, next, p) && IsPick(ready, next, q)
    ensures p == q
  {
    if p.Some? && q.Some? {
      DistanceInjective(|ready|, next, p.value, q.value);
    }
  }

  /** If another slot is picked, slot j is strictly closer next time; each slot appended in between
      can push it back by one. */
  lemma Closer(ready: Ready, next: nat, idx: nat, j: nat, n': nat)
    requires next <= |ready| && IsPick(ready, next, Some(idx)) && j < |ready| && ready[j] && j != idx && n' >= |ready|
    ensures Distance(n', idx + 1, j) < Distance(|ready|, next, j) + (n' - |ready|)
  {
    assert Distance(|ready|, next, idx) <= Distance(|ready|, next, j);
    if Distance(|ready|, next, idx) == Distance(|ready|, next, j) {
      DistanceInjective(|ready|, next, idx, j);
    }
  }

  /** One dispatch: what the scheduler saw and where the scan started. */
  datatype Round = Round(ready: Ready, next: nat, idx: nat)

  /** Consecutive dispatches: each picks by the scan, the next scan starts after the pick, slots are only appended. */
  ghost predicate IsRun(rounds: seq<Round>)
  {
    && (forall k :: 0 <= k < |rounds| ==>
          rounds[k].next <= |rounds[k].ready| && IsPick(rounds[k].ready, rounds[k].next, Some(rounds[k].idx)))
    && (forall k :: 0 < k < |rounds| ==>
          rounds[k].next == rounds[k - 1].idx + 1 && |rounds[k - 1].ready| <= |rounds[k].ready|)
  }

  /** Slot j is ready at every round and never picked. */
  ghost predicate Waits(rounds: seq<Round>, j: nat)
  {
    forall k :: 0 <= k < |rounds| ==> j < |rounds[k].ready| && rounds[k].ready[j] && rounds[k].idx != j
  }

  /** Bounded waiting: with n slots at the start, a thread that stays runnable is passed over at most
      n - 1 times, plus once for every slot appended meanwhile. */
  lemma BoundedWaiting(rounds: seq<Round>, j: nat)
    requires IsRun(rounds) && Waits(rounds, j) && |rounds| > 0
    ensures |rounds| <= (|rounds[0].ready| - 1) + (|rounds[|rounds| - 1].ready| - |rounds[0].ready|)
  {
    var last := |rounds| - 1;
    Budget(rounds, j, last);
    var r := rounds[last];
    Closer(r.ready, r.next, r.idx, j, |r.ready|);
  }

  lemma {:induction false} Budget(rounds: seq<Round>, j: nat, k: nat)
    requires IsRun(rounds) && Waits(rounds, j) && k < |rounds|
    ensures k + Distance(|rounds[k].ready|, rounds[k].next, j) <= |rounds[k].ready| - 1
  {
    if k > 0 {
      Budget(rounds, j, k - 1);
      var r := rounds[k - 1];
      Closer(r.ready, r.next, r.idx, j, |rounds[k].ready|);
    }
  }

  /** One more dispatch continues a run. */
  lemma RunNext(rounds: seq<Round>, r: Round)
    requires IsRun(rounds) && r.next <= |r.ready| && IsPick(r.ready, r.next, Some(r.idx))
    requires rounds != [] ==> r.next == rounds[|rounds| - 1].idx + 1 && |rounds[|rounds| - 1].ready| <= |r.ready|
    ensures IsRun(rounds + [r])
  {
    hide IsPick;
  }

  /** Consecutive dispatches out of a longer run are a run. */
  lemma RunPart(rounds: seq<Round>, a: nat, b: nat)
    requires IsRun(rounds) && a <= b <= |rounds|
    ensures IsRun(rounds[a..b])
  {
    hide IsPick;
  }
}
