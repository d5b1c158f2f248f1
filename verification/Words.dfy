/** 32-bit words and the wrapping millisecond tick. */
module Words {
  const TICKS: nat := 0x1_0000_0000

  type Word = x: int | 0 <= x < 0x1_0000_0000

  /** What sys_get_tick_ms returns when the true uptime is `clock` milliseconds. */
  function Tick(clock: nat): Word {
    clock % TICKS
  }

  /** Unsigned 32-bit subtraction. */
  function Sub32(a: Word, b: Word): Word {
    (a - b) % TICKS
  }

  /** Unsigned 32-bit addition. */
  function Add32(a: Word, b: Word): Word {
    (a + b) % TICKS
  }

  /** A tick difference is the true elapsed time modulo 2^32, wherever the tick wrapped. */
  lemma ElapsedModulo(last: nat, now: nat)
    requires last <= now
    ensures Sub32(Tick(now), Tick(last)) == (now - last) % TICKS
    ensures Sub32(Tick(now), Tick(last)) <= now - last
  {
    var q := now / TICKS - last / TICKS;
    assert Tick(now) - Tick(last) == now - last - q * TICKS;
    ModShift(now - last, -q);
    assert now - last == TICKS * ((now - last) / TICKS) + (now - last) % TICKS;
  }

  lemma ModShift(x: int, k: int)
    ensures (x + k * TICKS) % TICKS == x % TICKS
  {
    assert x + k * TICKS == TICKS * (x / TICKS + k) + x % TICKS;
  }

  /** Every `now - last >= threshold` gate written with 32-bit ticks fires exactly when the
      true elapsed time reaches the threshold, as long as the true gap is below 2^32 ms;
      without that bound it still never fires early. */
  lemma GateExact(last: nat, now: nat, threshold: Word)
    requires last <= now
    ensures Sub32(Tick(now), Tick(last)) >= threshold ==> now - last >= threshold
    ensures now - last < TICKS ==>
              (Sub32(Tick(now), Tick(last)) >= threshold <==> now - last >= threshold)
  {
    ElapsedModulo(last, now);
  }
}
