/** SYT fields: presentation times modulo 16 cycles, written and read relative to the cycle of
    a packet. */
module Syt {
  import opened Arith
  import opened SytSequence

  const CYCLE_MODULUS: nat := 16
  /** Ticks after which an SYT repeats. */
  const TICKS: nat := 49152

  /** compute_syt */
  function ComputeSyt(offset: nat, cycle: nat, delay: nat): (syt: nat)
    ensures syt < 0x1_0000
  {
    var t := offset + delay;
    ((cycle + t / TICKS_PER_CYCLE) * 0x1000 + t % TICKS_PER_CYCLE) % 0x1_0000
  }

  /** compute_syt_offset */
  function ComputeSytOffset(syt: nat, cycle: nat, delay: nat): int {
    var cycleLo := cycle % CYCLES_PER_SECOND % CYCLE_MODULUS;
    var sytCycleLo := syt / 0x1000 % 0x10;
    var cycles := if sytCycleLo < cycleLo then sytCycleLo + CYCLE_MODULUS - cycleLo else sytCycleLo - cycleLo;
    var offset := cycles * TICKS_PER_CYCLE + syt % 0x1000;
    if offset < delay then offset + CYCLE_MODULUS * TICKS_PER_CYCLE - delay else offset - delay
  }

  /** Ticks from the start of `cycle` to the time that `syt` denotes, modulo 16 cycles. */
  function Distance(syt: nat, cycle: nat): nat {
    (syt / 0x1000 + CYCLE_MODULUS - cycle % CYCLE_MODULUS) % CYCLE_MODULUS * TICKS_PER_CYCLE + syt % 0x1000
  }

  predicate Valid(syt: nat) { syt < 0x1_0000 && syt % 0x1000 < TICKS_PER_CYCLE }

  lemma CycleLow(cycle: nat)
    ensures cycle % CYCLES_PER_SECOND % CYCLE_MODULUS == cycle % CYCLE_MODULUS
  {
    var q, r := cycle / CYCLES_PER_SECOND, cycle % CYCLES_PER_SECOND;
    var a, b := r / CYCLE_MODULUS, r % CYCLE_MODULUS;
    assert cycle == (500 * q + a) * CYCLE_MODULUS + b;
    QuotientIs(cycle, 500 * q + a, b, CYCLE_MODULUS);
  }

  /** The parts of a generated SYT. */
  lemma SytParts(offset: nat, cycle: nat, delay: nat)
    ensures var syt, t := ComputeSyt(offset, cycle, delay), offset + delay;
      && Valid(syt) && syt / 0x1000 == (cycle + t / TICKS_PER_CYCLE) % CYCLE_MODULUS
      && syt % 0x1000 == t % TICKS_PER_CYCLE
  {
    var t := offset + delay;
    var c, r := cycle + t / TICKS_PER_CYCLE, t % TICKS_PER_CYCLE;
    var q, d := c / CYCLE_MODULUS, c % CYCLE_MODULUS;
    assert c == q * CYCLE_MODULUS + d;
    assert c * 0x1000 + r == q * 0x1_0000 + (d * 0x1000 + r);
    QuotientIs(c * 0x1000 + r, q, d * 0x1000 + r, 0x1_0000);
    QuotientIs(d * 0x1000 + r, d, r, 0x1000);
  }

  /** The time of a generated SYT, seen from its own cycle. */
  lemma SytDistance(offset: nat, cycle: nat, delay: nat)
    ensures Distance(ComputeSyt(offset, cycle, delay), cycle) == (offset + delay) % TICKS
  {
    hide ComputeSyt;
    SytParts(offset, cycle, delay);
    var t := offset + delay;
    var n, r := t / TICKS_PER_CYCLE, t % TICKS_PER_CYCLE;
    var k := (cycle + n) % CYCLE_MODULUS;
    CycleDifference(cycle, n);
    var a, b := n / CYCLE_MODULUS, n % CYCLE_MODULUS;
    assert t == a * TICKS + (b * TICKS_PER_CYCLE + r);
    QuotientIs(t, a, b * TICKS_PER_CYCLE + r, TICKS);
  }

  lemma CycleDifference(cycle: nat, n: nat)
    ensures ((cycle + n) % CYCLE_MODULUS + CYCLE_MODULUS - cycle % CYCLE_MODULUS) % CYCLE_MODULUS == n % CYCLE_MODULUS
  {
  }

  /** What compute_syt_offset computes: the distance less the delay, modulo 16 cycles. */
  lemma OffsetIsDistance(syt: nat, cycle: nat, delay: nat)
    requires syt < 0x1_0000 && delay < TICKS
    ensures var o := ComputeSytOffset(syt, cycle, delay);
      && 0 <= o < NO_INFO && (o + delay) % TICKS == Distance(syt, cycle) % TICKS
      && (Valid(syt) ==> o < TICKS && Distance(syt, cycle) < TICKS)
  {
    CycleLow(cycle);
    var lo, high := cycle % CYCLE_MODULUS, syt / 0x1000;
    assert high < 16 && high % 0x10 == high;
    var d := Distance(syt, cycle);
    assert (high + CYCLE_MODULUS - lo) % CYCLE_MODULUS == if high < lo then high + CYCLE_MODULUS - lo else high - lo;
    var o := ComputeSytOffset(syt, cycle, delay);
    assert o + delay == if d < delay then d + TICKS else d;
  }

  /** Reading undoes writing, for every offset and delay below 16 cycles. */
  lemma OffsetInvertsSyt(offset: nat, cycle: nat, delay: nat)
    requires offset < TICKS && delay < TICKS
    ensures ComputeSytOffset(ComputeSyt(offset, cycle, delay), cycle, delay) == offset
  {
    hide ComputeSyt, ComputeSytOffset, Distance;
    SytParts(offset, cycle, delay);
    SytDistance(offset, cycle, delay);
    OffsetIsDistance(ComputeSyt(offset, cycle, delay), cycle, delay);
    SameOffset(offset, ComputeSytOffset(ComputeSyt(offset, cycle, delay), cycle, delay), delay);
  }

  lemma SameOffset(a: nat, b: nat, delay: nat)
    requires a < TICKS && b < TICKS && (a + delay) % TICKS == (b + delay) % TICKS
    ensures a == b
  {
  }

  /** A replayed packet keeps the received distance between SYT and cycle. */
  lemma ReplayKeepsDistance(syt: nat, cycle: nat, later: nat, delay: nat)
    requires Valid(syt) && delay < TICKS
    ensures var o := ComputeSytOffset(syt, cycle, delay);
      o >= 0 && Distance(ComputeSyt(o, later, delay), later) == Distance(syt, cycle)
  {
    hide ComputeSyt, ComputeSytOffset, Distance;
    OffsetIsDistance(syt, cycle, delay);
    SytDistance(ComputeSytOffset(syt, cycle, delay), later, delay);
  }

  /** In the same cycle the SYT itself comes back. */
  lemma SytInvertsOffset(syt: nat, cycle: nat, delay: nat)
    requires Valid(syt) && delay < TICKS
    ensures var o := ComputeSytOffset(syt, cycle, delay); o >= 0 && ComputeSyt(o, cycle, delay) == syt
  {
    hide ComputeSyt, ComputeSytOffset;
    ReplayKeepsDistance(syt, cycle, cycle, delay);
    var o := ComputeSytOffset(syt, cycle, delay);
    SytParts(o, cycle, delay);
    SameDistance(syt, ComputeSyt(o, cycle, delay), cycle);
  }

  lemma SameDistance(a: nat, b: nat, cycle: nat)
    requires Valid(a) && Valid(b) && Distance(a, cycle) == Distance(b, cycle)
    ensures a == b
  {
    var lo, x, y := cycle % CYCLE_MODULUS, a / 0x1000, b / 0x1000;
    var p, q := (x + CYCLE_MODULUS - lo) % CYCLE_MODULUS, (y + CYCLE_MODULUS - lo) % CYCLE_MODULUS;
    QuotientIs(Distance(a, cycle), p, a % 0x1000, TICKS_PER_CYCLE);
    QuotientIs(Distance(b, cycle), q, b % 0x1000, TICKS_PER_CYCLE);
    assert a == x * 0x1000 + a % 0x1000 && b == y * 0x1000 + b % 0x1000;
  }
}
