/** The microsecond clock, and the 32-bit ticks that os/schedule.c and os/periodic.c store. */
module Clock {
  const TICK_LIMIT: nat := 0x1_0000_0000

  /** The tick ms milliseconds after now, as both files compute it in 32 bits. */
  function TickAfter(now: nat, ms: nat): nat
  {
    (now + ms * 1000 % TICK_LIMIT) % TICK_LIMIT
  }

  /** The tick is the requested time iff that time fits in 32 bits; otherwise it is earlier. */
  lemma TickAfterIff(now: nat, ms: nat)
    requires now < TICK_LIMIT
    ensures TickAfter(now, ms) == now + ms * 1000 <==> now + ms * 1000 < TICK_LIMIT
    ensures TickAfter(now, ms) <= now + ms * 1000
  {
    var d := ms * 1000;
    assert d % TICK_LIMIT <= d;
    assert (now + d % TICK_LIMIT) % TICK_LIMIT <= now + d % TICK_LIMIT;
  }

  /** Whatever the times, the tick is the requested time modulo 2^32. */
  lemma TickIs(now: nat, ms: nat)
    ensures TickAfter(now, ms) == (now + ms * 1000) % TICK_LIMIT
  {
    var d := ms * 1000;
    var q, r := d / TICK_LIMIT, d % TICK_LIMIT;
    assert now + d == q * TICK_LIMIT + (now + r);
    var x := (now + r) / TICK_LIMIT;
    assert now + d == (q + x) * TICK_LIMIT + TickAfter(now, ms);
  }
}
