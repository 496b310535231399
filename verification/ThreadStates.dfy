/** The states of a thread (src/proc.rs:61-67) and the fixed channels threads sleep on. */
module ThreadStates {
  datatype State = Runnable | Running | Sleeping(chan: nat) | Zombie

  /** Wait channels of join (src/proc.rs:443) and of sleep_ticks (src/timer.rs:16). */
  const EXIT_CHAN := 0xdead_0001
  const TICK_CHAN := 0x711c_c4a7
}
