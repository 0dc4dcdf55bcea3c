// Unbounded time and the 32-bit tick count that shows it modulo its range.
module Ticks {

  const WRAP := 0x1_0000_0000

  type Tick = t: int | 0 <= t < WRAP

  // What xTickCount reads at unbounded time n.
  function TickOf(n: nat): Tick { n % WRAP }

  // How often it has wrapped by then.
  function Epoch(n: nat): nat { n / WRAP }

  // What xNumOfOverflows, a 32-bit count itself, reads then.
  function Overflows(n: nat): Tick { TickOf(Epoch(n)) }

  // 32-bit addition and subtraction.
  function Plus(a: Tick, b: Tick): Tick { (a + b) % WRAP }

  function Minus(a: Tick, b: Tick): Tick { (a - b) % WRAP }

  lemma PlusTick(n: nat, d: Tick)
    ensures Plus(TickOf(n), d) == TickOf(n + d)
  {
  }
}
