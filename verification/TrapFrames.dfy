/** The saved register frame (src/trap.rs:8-45): x1 to x31, then sepc and sstatus. */
module TrapFrames {
  const SP := 1
  const A0 := 9
  const A1 := 10

  datatype TrapFrame = TrapFrame(x: seq<nat>, sepc: nat, sstatus: nat)
  {
    predicate Valid() { |x| == 31 }

    /** x2 */
    function Sp(): nat
      requires Valid()
    {
      x[SP]
    }

    /** x10 */
    function WithA0(v: nat): TrapFrame
      requires Valid()
    {
      this.(x := x[A0 := v])
    }

    /** The interrupted code ran in user mode: SSTATUS_SPP is clear. */
    predicate FromUser() { sstatus / 256 % 2 == 0 }
  }
}
