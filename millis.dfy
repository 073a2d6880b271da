/** Fixed-width unsigned arithmetic of the firmware: the free-running 32-bit
    millisecond counter (`unsigned long` on the device) and 8-bit PWM duty. */
module Millis {

  const MOD32: int := 0x1_0000_0000

  /** `unsigned long` / `unsigned int` on the device. */
  type u32 = x: int | 0 <= x < 0x1_0000_0000

  /** `uint8_t`. */
  type u8 = x: int | 0 <= x < 256

  /** Unsigned addition: `a + b` wraps past 2^32. */
  function Add32(a: u32, b: u32): (r: u32)
    ensures a + b < MOD32 ==> r == a + b
    ensures a + b >= MOD32 ==> r == a + b - MOD32
  {
    (a + b) % MOD32
  }

  /** Unsigned subtraction `now - since`: the time elapsed since `since`,
      correct across one wrap of the counter. */
  function Elapsed(now: u32, since: u32): (r: u32)
    ensures since <= now ==> r == now - since
    ensures now < since ==> r == now + MOD32 - since
  {
    (now - since) % MOD32
  }

  /** Conversion of any integer to `unsigned int` (reduction modulo 2^32). */
  function ToU32(x: int): (r: u32)
    ensures 0 <= x < MOD32 ==> r == x
    ensures (r - x) % MOD32 == 0
  {
    x % MOD32
  }

  /** The elapsed time measured from a deadline-start `t` to `t + d` is `d`,
      whether or not the addition wrapped. */
  lemma ElapsedAfterAdd(t: u32, d: u32)
    ensures Elapsed(Add32(t, d), t) == d
  {
    if t + d >= MOD32 {
      assert Add32(t, d) == t + d - MOD32;
    }
  }
}
