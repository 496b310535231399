/**
 Trap entry and exit (src/kernelvec.S:91-138), the return of a forked child (src/userret.S:16-58) and the
 first entry to user mode (src/proc.rs:338-351), as instructions on registers, CSRs and the stack.
 */
module Traps {
  import opened TrapFrames

  const FRAME_SIZE := 272

  /** Words of memory by address. */
  type Words = map<nat, nat>

  /** Address of slot `i` of the frame at `p`: x(i+1) for i up to 30, then sepc and sstatus. */
  function Slot(p: nat, i: nat): nat { p + 8 * i }

  /** The frame `f` lies at `p`. */
  predicate IsFrame(mem: Words, p: nat, f: TrapFrame)
  {
    && f.Valid()
    && (forall i: nat :: i < 31 ==> Slot(p, i) in mem && mem[Slot(p, i)] == f.x[i])
    && Slot(p, 31) in mem && mem[Slot(p, 31)] == f.sepc
    && Slot(p, 32) in mem && mem[Slot(p, 32)] == f.sstatus
  }

  /** Nothing outside [lo, hi) was written. */
  predicate OnlyIn(mem: Words, mem': Words, lo: nat, hi: nat)
  {
    forall a :: a in mem && !(lo <= a < hi) ==> a in mem' && mem'[a] == mem[a]
  }

  /** Clear SPP, set SPIE. */
  function ToUser(sstatus: nat): nat
  {
    var s := if sstatus / 256 % 2 == 1 then sstatus - 256 else sstatus;
    if s / 32 % 2 == 0 then s + 32 else s
  }

  /** sstatus without SPP and SPIE. */
  function OtherBits(sstatus: nat): int { sstatus - 256 * (sstatus / 256 % 2) - 32 * (sstatus / 32 % 2) }

  lemma Nested(x: nat)
    ensures x / 256 == x / 32 / 8
  {
    var q := x / 32;
    assert x == 32 * q + x % 32;
    assert q == 8 * (q / 8) + q % 8;
  }

  lemma EvenNext(q: nat)
    requires q % 2 == 0
    ensures (q + 1) / 8 == q / 8 && (q + 1) % 2 == 1
  {
  }

  lemma SetSpie(t: nat)
    requires t / 32 % 2 == 0
    ensures (t + 32) / 32 % 2 == 1 && (t + 32) / 256 == t / 256
  {
    Nested(t);
    Nested(t + 32);
    EvenNext(t / 32);
    assert (t + 32) / 32 == t / 32 + 1;
  }

  lemma ToUserBits(s: nat)
    ensures ToUser(s) / 256 % 2 == 0 && ToUser(s) / 32 % 2 == 1 && OtherBits(ToUser(s)) == OtherBits(s)
  {
    var t := if s / 256 % 2 == 1 then s - 256 else s;
    assert t / 256 % 2 == 0;
    if t / 32 % 2 == 0 {
      SetSpie(t);
    }
  }

  class Hart {
    /** x1 to x31 */
    var x: seq<nat>
    var sscratch: nat
    var sepc: nat
    var sstatus: nat
    var mem: Words

    predicate Valid()
      reads this
    {
      |x| == 31
    }

    /** SAVE_GP: every register but sp. */
    method SaveGp()
      requires Valid()
      modifies `mem
      ensures forall i: nat :: i < 31 && i != SP ==> Slot(x[SP], i) in mem && mem[Slot(x[SP], i)] == x[i]
      ensures OnlyIn(old(mem), mem, x[SP], x[SP] + 248)
    {
      var i := 0;
      while i < 31
        invariant 0 <= i <= 31
        invariant forall j: nat :: j < i && j != SP ==> Slot(x[SP], j) in mem && mem[Slot(x[SP], j)] == x[j]
        invariant OnlyIn(old(mem), mem, x[SP], x[SP] + 248)
      {
        if i != SP {
          mem := mem[Slot(x[SP], i) := x[i]];
        }
        i := i + 1;
      }
    }

    /** The first half of kernelvec: choose the stack and save x1 to x31 there. */
    method SaveAll()
      requires Valid() && FRAME_SIZE <= (if sscratch != 0 then sscratch else x[SP])
      modifies `x, `sscratch, `mem
      ensures
        var base := if old(sscratch) != 0 then old(sscratch) else old(x)[SP];
        && Valid() && x[SP] == base - FRAME_SIZE && sscratch == 0
        && (forall i: nat :: i < 31 ==> Slot(x[SP], i) in mem && mem[Slot(x[SP], i)] == old(x)[i])
        && OnlyIn(old(mem), mem, x[SP], x[SP] + 248)
    {
      var sp := x[SP];
      x, sscratch := x[SP := sscratch], sp;
      if x[SP] == 0 {
        x, sscratch := x[SP := sscratch], x[SP];
        x := x[SP := x[SP] - FRAME_SIZE];
        SaveGp();
        x := x[4 := x[SP] + FRAME_SIZE];
        mem := mem[Slot(x[SP], SP) := x[4]];
      } else {
        x := x[SP := x[SP] - FRAME_SIZE];
        SaveGp();
        x := x[4 := sscratch];
        mem := mem[Slot(x[SP], SP) := x[4]];
        sscratch := 0;
      }
    }

    /** kernelvec up to the call of kerneltrap: the whole interrupted state is in the frame, right below the trap
        stack named by sscratch, or below the interrupted sp if sscratch is zero; sscratch is then zero. */
    method Enter()
      requires Valid() && FRAME_SIZE <= (if sscratch != 0 then sscratch else x[SP])
      modifies `x, `sscratch, `mem
      ensures Valid()
      ensures
        var base := if old(sscratch) != 0 then old(sscratch) else old(x)[SP];
        && IsFrame(mem, base - FRAME_SIZE, TrapFrame(old(x), sepc, sstatus))
        && x[SP] == x[A0] == base - FRAME_SIZE && sscratch == 0
        && OnlyIn(old(mem), mem, base - FRAME_SIZE, base)
        && (base % 16 == 0 ==> x[SP] % 16 == 0)
    {
      SaveAll();
      x := x[4 := sepc];
      mem := mem[Slot(x[SP], 31) := x[4]];
      x := x[4 := sstatus];
      mem := mem[Slot(x[SP], 32) := x[4]];
      x := x[A0 := x[SP]];
    }

    /** kernelvec after the call: the interrupted code gets the frame as the handler left it; before a return to
        user mode sscratch names the top of this trap stack again. */
    method Leave(ghost f: TrapFrame)
      requires Valid() && IsFrame(mem, x[SP], f)
      modifies `x, `sscratch, `sepc, `sstatus
      ensures Valid() && x == f.x && sepc == f.sepc && sstatus == f.sstatus
      ensures sscratch == if f.FromUser() then old(x)[SP] + FRAME_SIZE else old(sscratch)
    {
      x := x[4 := mem[Slot(x[SP], 31)]];
      sepc := x[4];
      x := x[5 := mem[Slot(x[SP], 32)]];
      sstatus := x[5];
      if x[5] / 256 % 2 == 0 {
        x := x[4 := x[SP] + FRAME_SIZE];
        sscratch := x[4];
      }
      LoadGp(f, SP, SP);
      x := x[SP := mem[Slot(x[SP], SP)]];
      assert x == f.x;
    }

    /** LOAD_GP: every register but `keep`, and but the base register `via`. */
    method LoadGp(ghost f: TrapFrame, keep: nat, via: nat)
      requires Valid() && keep < 31 && via < 31 && IsFrame(mem, x[via], f)
      modifies `x
      ensures Valid() && x[keep] == old(x)[keep] && x[via] == old(x)[via]
      ensures forall i: nat :: i < 31 && i != keep && i != via ==> x[i] == f.x[i]
    {
      ghost var p := x[via];
      var i := 0;
      while i < 31
        invariant 0 <= i <= 31 && |x| == 31 && x[keep] == old(x)[keep] && x[via] == p
        invariant forall j: nat :: j < i && j != keep && j != via ==> x[j] == f.x[j]
      {
        if i != keep && i != via {
          x := x[i := mem[Slot(x[via], i)]];
        }
        i := i + 1;
      }
    }

    /** userret(frame, kstack_top) */
    method UserRet(ghost f: TrapFrame)
      requires Valid() && IsFrame(mem, x[A0], f)
      modifies `x, `sscratch, `sepc, `sstatus
      ensures Valid() && x == f.x && sepc == f.sepc && sstatus == f.sstatus && sscratch == old(x)[A1]
    {
      sscratch := x[A1];
      x := x[4 := mem[Slot(x[A0], 31)]];
      sepc := x[4];
      x := x[4 := mem[Slot(x[A0], 32)]];
      sstatus := x[4];
      LoadGp(f, SP, A0);
      x := x[SP := mem[Slot(x[A0], SP)]];
      x := x[A0 := mem[Slot(x[A0], A0)]];
      assert x == f.x;
    }

    /** enter_user */
    method EnterUser(entry: nat, userSp: nat, kstackTop: nat)
      requires Valid()
      modifies `x, `sscratch, `sepc, `sstatus
      ensures Valid() && sscratch == kstackTop && sepc == entry && x == old(x)[1 := userSp]
      ensures sstatus / 256 % 2 == 0 && sstatus / 32 % 2 == 1 && OtherBits(sstatus) == OtherBits(old(sstatus))
    {
      ToUserBits(sstatus);
      hide ToUser;
      sscratch := kstackTop;
      sepc := entry;
      sstatus := ToUser(sstatus);
      x := x[SP := userSp];
    }

    /** A trap and the return from it, for every handler: it may leave anything in the registers, the CSRs and
        memory (`x'`, `csr`, `mem'`) as long as it keeps its stack pointer and leaves `f` in the frame.  The interrupted
        code resumes with `f`, so with everything it had if the frame was not changed; and a trap from user mode
        leaves sscratch naming the same stack for the next one. */
    method TrapAndReturn(f: TrapFrame, x': seq<nat>, csr: nat, mem': Words)
      requires Valid() && FRAME_SIZE <= (if sscratch != 0 then sscratch else x[SP])
      requires
        var p := (if sscratch != 0 then sscratch else x[SP]) - FRAME_SIZE;
        |x'| == 31 && x'[SP] == p && IsFrame(mem', p, f) && (sscratch != 0 <==> f.FromUser())
      modifies this
      ensures Valid() && x == f.x && sepc == f.sepc && sstatus == f.sstatus && sscratch == old(sscratch)
    {
      Enter();
      x, sepc, sstatus, mem := x', csr, csr, mem';
      Leave(f);
    }
  }
}
