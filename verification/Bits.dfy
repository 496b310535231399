/**
 The bit expressions of src/vm.rs and src/heap.rs, and the arithmetic the other modules use in their place.
 `And` and `Or` are given digit by digit; `AndAt` and `OrAt` say that these are the bitwise operations.
 */
module Bits {
  import opened PageTables
  import HeapSpec

  const WORD := 0x1_0000_0000_0000_0000

  function Pow2(k: nat): (r: nat)
    ensures r > 0
  {
    if k == 0 then 1 else 2 * Pow2(k - 1)
  }

  function Shr(x: nat, k: nat): nat { if k == 0 then x else Shr(x / 2, k - 1) }

  /** Shifts left lose what leaves the 64-bit word. */
  function Shl(x: nat, k: nat): nat { x * Pow2(k) % WORD }

  predicate BitAt(x: nat, k: nat) { Shr(x, k) % 2 == 1 }

  function And(x: nat, y: nat): nat
  {
    if x == 0 || y == 0 then 0 else 2 * And(x / 2, y / 2) + (if x % 2 == 1 && y % 2 == 1 then 1 else 0)
  }

  function Or(x: nat, y: nat): nat
  {
    if x == 0 then y else if y == 0 then x else 2 * Or(x / 2, y / 2) + (if x % 2 == 1 || y % 2 == 1 then 1 else 0)
  }

  function Not(x: nat): nat
    requires x < WORD
  {
    WORD - 1 - x
  }

  lemma {:induction false} ShrZero(k: nat)
    ensures Shr(0, k) == 0
  {
    if k > 0 {
      ShrZero(k - 1);
    }
  }

  lemma {:induction false} AndAt(x: nat, y: nat, k: nat)
    ensures BitAt(And(x, y), k) <==> BitAt(x, k) && BitAt(y, k)
    decreases k
  {
    ShrZero(k);
    if k > 0 && x > 0 && y > 0 {
      assert And(x, y) / 2 == And(x / 2, y / 2);
      AndAt(x / 2, y / 2, k - 1);
    }
  }

  lemma {:induction false} OrAt(x: nat, y: nat, k: nat)
    ensures BitAt(Or(x, y), k) <==> BitAt(x, k) || BitAt(y, k)
    decreases k
  {
    ShrZero(k);
    if k > 0 && x > 0 && y > 0 {
      assert Or(x, y) / 2 == Or(x / 2, y / 2);
      OrAt(x / 2, y / 2, k - 1);
    }
  }

  // --- division by powers of two ---

  lemma DivUnique(x: nat, d: nat, q: nat, r: nat)
    requires x == q * d + r && r < d
    ensures x / d == q && x % d == r
  {
    HeapSpec.DivBounds(x, d);
    if x / d < q {
      HeapSpec.MulLe(x / d + 1, q, d);
    } else if q < x / d {
      HeapSpec.MulLe(q + 1, x / d, d);
    }
  }

  lemma Halve(x: nat, d: nat)
    requires d > 0
    ensures x / (2 * d) == x / 2 / d && x % (2 * d) == 2 * (x / 2 % d) + x % 2
  {
    var q, r := x / 2 / d, x / 2 % d;
    assert x / 2 == q * d + r;
    assert x == q * (2 * d) + (2 * r + x % 2);
    DivUnique(x, 2 * d, q, 2 * r + x % 2);
  }

  lemma {:induction false} ShrDiv(x: nat, k: nat)
    ensures Shr(x, k) == x / Pow2(k)
  {
    if k > 0 {
      ShrDiv(x / 2, k - 1);
      Halve(x, Pow2(k - 1));
    }
  }

  // --- masks ---

  lemma {:induction false} AndLow(x: nat, k: nat)
    ensures And(x, Pow2(k) - 1) == x % Pow2(k)
  {
    if k > 0 {
      AndLow(x / 2, k - 1);
      Halve(x, Pow2(k - 1));
      assert (Pow2(k) - 1) / 2 == Pow2(k - 1) - 1;
    }
  }

  lemma {:induction false} PowLe(k: nat, n: nat)
    requires k <= n
    ensures Pow2(k) <= Pow2(n)
  {
    if k < n {
      PowLe(k, n - 1);
    }
  }

  lemma MulDouble(q: nat, a: nat)
    ensures q * (2 * a) == 2 * (q * a)
  {
  }

  lemma AndEven(x: nat, h: nat)
    ensures And(x, 2 * h) == 2 * And(x / 2, h)
  {
  }

  lemma {:induction false} AndHigh(x: nat, k: nat, n: nat)
    requires k <= n && x < Pow2(n)
    ensures Pow2(k) <= Pow2(n) && And(x, Pow2(n) - Pow2(k)) == x / Pow2(k) * Pow2(k)
  {
    PowLe(k, n);
    hide And;
    if k == n {
      assert And(x, 0) == 0 by { AndLow(x, 0); }
      DivUnique(x, Pow2(n), 0, x);
    } else if k == 0 {
      AndLow(x, n);
      DivUnique(x, Pow2(n), 0, x);
    } else {
      var a, h := Pow2(k - 1), Pow2(n - 1) - Pow2(k - 1);
      AndHigh(x / 2, k - 1, n - 1);
      Halve(x, a);
      assert Pow2(n) - Pow2(k) == 2 * h;
      AndEven(x, h);
      MulDouble(x / 2 / a, a);
    }
  }

  lemma {:induction false} AndOne(x: nat, k: nat)
    ensures And(x, Pow2(k)) == if x / Pow2(k) % 2 == 1 then Pow2(k) else 0
  {
    if k > 0 {
      AndOne(x / 2, k - 1);
      Halve(x, Pow2(k - 1));
    }
  }

  lemma {:induction false} OrApart(x: nat, y: nat, k: nat)
    requires x % Pow2(k) == 0 && y < Pow2(k)
    ensures Or(x, y) == x + y
  {
    if k > 0 {
      Halve(x, Pow2(k - 1));
      OrApart(x / 2, y / 2, k - 1);
    }
  }

  lemma {:induction false} OrOne(x: nat, k: nat)
    requires x / Pow2(k) % 2 == 0
    ensures Or(x, Pow2(k)) == x + Pow2(k)
  {
    if k > 0 {
      Halve(x, Pow2(k - 1));
      OrOne(x / 2, k - 1);
    }
  }

  /** The powers the code uses. */
  lemma Powers()
    ensures Pow2(0) == 1 && Pow2(1) == 2 && Pow2(2) == 4 && Pow2(3) == 8 && Pow2(4) == 16
    ensures Pow2(6) == 64 && Pow2(7) == 128 && Pow2(9) == 512 && Pow2(10) == 1024 && Pow2(12) == 4096
    ensures Pow2(21) == 0x20_0000 && Pow2(30) == 0x4000_0000 && Pow2(63) == WORD / 2 && Pow2(64) == WORD
  {
    assert Pow2(4) == 16;
    assert Pow2(7) == 128;
    assert Pow2(10) == 1024;
    assert Pow2(16) == 0x1_0000;
    assert Pow2(21) == 0x20_0000;
    assert Pow2(30) == 0x4000_0000;
    assert Pow2(36) == 0x10_0000_0000;
    assert Pow2(44) == 0x1000_0000_0000;
    assert Pow2(54) == 0x40_0000_0000_0000;
  }

  // --- src/heap.rs ---

  /** `(x + align - 1) & !(align - 1)`, for any power of two and no overflow in the sum. */
  lemma AlignUpIsMask(x: nat, k: nat)
    requires k < 64 && x + Pow2(k) - 1 < WORD
    ensures Pow2(k) <= WORD && And(x + Pow2(k) - 1, Not(Pow2(k) - 1)) == HeapSpec.AlignUp(x, Pow2(k))
  {
    Powers();
    hide And, Pow2;
    AndHigh(x + Pow2(k) - 1, k, 64);
  }

  lemma {:induction false} Pow2Big(k: nat)
    requires 4 <= k
    ensures Pow2(k) % 16 == 0
  {
    if k == 4 {
      assert Pow2(4) == 16;
    } else {
      Pow2Big(k - 1);
    }
  }

  /** Every alignment of a Layout, raised to at least 16, is a multiple of 16. */
  lemma Pow2Aligned(k: nat)
    ensures (if Pow2(k) < 16 then 16 else Pow2(k)) % 16 == 0
  {
    if k < 4 {
      PowLe(k, 4);
      assert Pow2(4) == 16;
    } else {
      Pow2Big(k);
    }
  }

  // --- src/vm.rs ---

  function PaToPte(pa: nat): nat { Shl(Shr(pa, 12), 10) }
  function PteToPa(e: nat): nat { Shl(Shr(e, 10), 12) }
  function Vpn(va: nat, level: nat): nat { And(Shr(va, 12 + 9 * level), 0x1ff) }

  const PTE_V := 1
  const PTE_A := 64
  const PTE_D := 128

  function PermMask(): nat { Or(Or(Or(PTE_R, PTE_W), PTE_X), PTE_U) }

  lemma FlagTests(e: nat)
    ensures And(e, PTE_V) != 0 <==> IsValid(e)
    ensures And(e, PTE_R) != 0 <==> HasR(e)
    ensures And(e, PTE_W) != 0 <==> HasW(e)
    ensures And(e, PTE_X) != 0 <==> HasX(e)
    ensures And(e, PTE_U) != 0 <==> HasU(e)
  {
    Powers();
    hide And, Pow2;
    AndOne(e, 0);
    AndOne(e, 1);
    AndOne(e, 2);
    AndOne(e, 3);
    AndOne(e, 4);
  }

  lemma MaskedPerm(e: nat)
    ensures And(e, PermMask()) == PermOf(e)
  {
    Powers();
    assert Or(PTE_R, PTE_W) == 6;
    assert Or(6, PTE_X) == 14;
    assert Or(14, PTE_U) == 30;
    hide And, Pow2;
    AndLow(e / 2, 4);
    AndEven(e, 15);
  }

  lemma PteOfPage(p: nat)
    requires p * 1024 < WORD
    ensures PaToPte(p * 4096) == p * 1024
  {
    Powers();
    hide Shr, Pow2;
    ShrDiv(p * 4096, 12);
  }

  lemma PageOfPte(e: nat)
    requires e < 0x40_0000_0000_0000
    ensures PteToPa(e) == Ppn(e) * 4096
  {
    Powers();
    hide Shr, Pow2;
    ShrDiv(e, 10);
  }

  /** Where the status bits go, the other fields are clear. */
  lemma Room(p: nat, perm: nat)
    requires IsPerm(perm)
    ensures p * 1024 % 1024 == 0 && perm < 1024
    ensures (p * 1024 + perm) / 64 % 2 == 0 && (p * 1024 + perm + 64) / 128 % 2 == 0
    ensures (p * 1024 + perm + 192) / 1 % 2 == 0
  {
    DivUnique(p * 1024 + perm, 64, p * 16, perm);
    DivUnique(p * 1024 + perm + 64, 128, p * 8, perm + 64);
  }

  lemma Flags(x: nat, perm: nat)
    requires x % 1024 == 0 && perm < 1024
    requires (x + perm) / 64 % 2 == 0 && (x + perm + 64) / 128 % 2 == 0 && (x + perm + 192) / 1 % 2 == 0
    ensures Or(x, PTE_V) == x + 1
    ensures Or(Or(Or(Or(x, perm), PTE_A), PTE_D), PTE_V) == x + perm + 193
  {
    Powers();
    hide Or, Pow2;
    OrApart(x, 1, 10);
    OrApart(x, perm, 10);
    OrOne(x + perm, 6);
    OrOne(x + perm + 64, 7);
    OrOne(x + perm + 192, 0);
  }

  /** The entries walk and map_pages write. */
  lemma EntriesWritten(p: nat, perm: nat)
    requires p * 1024 + 1023 < WORD && IsPerm(perm)
    ensures Or(PaToPte(p * 4096), PTE_V) == Ptr(p)
    ensures Or(Or(Or(Or(PaToPte(p * 4096), perm), PTE_A), PTE_D), PTE_V) == LeafPte(p, perm)
  {
    PteOfPage(p);
    Room(p, perm);
    hide Or, PaToPte, IsPerm;
    Flags(p * 1024, perm);
  }

  /** The `andi` of kernelvec.S with SSTATUS_SPP. */
  lemma SppTest(sstatus: nat)
    ensures And(sstatus, 0x100) != 0 <==> sstatus / 256 % 2 == 1
  {
    Powers();
    hide And;
    assert Pow2(8) == 256;
    hide Pow2;
    AndOne(sstatus, 8);
  }

  /** The three indices walk uses, and the address clone_user_table rebuilds from them. */
  lemma Indices(va: nat)
    requires va < VP_MAX * 4096
    ensures Vpn(va, 2) == V2(va / 4096) && Vpn(va, 1) == V1(va / 4096) && Vpn(va, 0) == V0(va / 4096)
  {
    Powers();
    hide And, Shr, Pow2;
    ShrDiv(va, 12);
    ShrDiv(va, 21);
    ShrDiv(va, 30);
    AndLow(va / 0x4000_0000, 9);
    AndLow(va / 0x20_0000, 9);
    AndLow(va / 4096, 9);
  }

  lemma Rebuilt(i: nat, j: nat)
    requires i < 512 && j < 512
    ensures Or(Or(Shl(USER_SLOT, 30), Shl(i, 21)), Shl(j, 12)) == VpOf(USER_SLOT, i, j) * 4096
  {
    Powers();
    hide Or, Pow2;
    OrApart(0x4000_0000, i * 0x20_0000, 30);
    OrApart(0x4000_0000 + i * 0x20_0000, j * 4096, 21);
  }

  /** The physical address translate returns. */
  lemma Offset(e: nat, va: nat)
    requires e < 0x40_0000_0000_0000
    ensures Or(PteToPa(e), va % 4096) == Ppn(e) * 4096 + va % 4096
  {
    PageOfPte(e);
    Powers();
    hide Or, PteToPa, Pow2;
    OrApart(Ppn(e) * 4096, va % 4096, 12);
  }
}
