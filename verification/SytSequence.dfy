/** The ideal packet sequence of an AMDTP stream: presentation time offsets and numbers of
    data blocks, generated without tables and shown to be the exact rational sequences. */
module SytSequence {
  import opened Arith

  const TICKS_PER_CYCLE: nat := 3072
  const CYCLES_PER_SECOND: nat := 8000
  const TICKS_PER_SECOND: nat := 24576000
  const NO_INFO: nat := 0xffff

  /** Sampling frequency codes in their numeric order. */
  datatype Sfc = R32000 | R44100 | R48000 | R88200 | R96000 | R176400 | R192000

  function Code(sfc: Sfc): nat {
    match sfc
    case R32000 => 0 case R44100 => 1 case R48000 => 2 case R88200 => 3
    case R96000 => 4 case R176400 => 5 case R192000 => 6
  }

  predicate Base44100(sfc: Sfc) { Code(sfc) % 2 == 1 }

  function Rate(sfc: Sfc): (r: nat)
    ensures r > 0
  {
    match sfc
    case R32000 => 32000 case R44100 => 44100 case R48000 => 48000 case R88200 => 88200
    case R96000 => 96000 case R176400 => 176400 case R192000 => 192000
  }

  function SytInterval(sfc: Sfc): nat {
    match sfc
    case R32000 => 8 case R44100 => 8 case R48000 => 8 case R88200 => 16
    case R96000 => 16 case R176400 => 32 case R192000 => 32
  }

  // ---- presentation times --------------------------------------------------

  /** a / b rounded to the nearest integer. */
  function Round(a: nat, b: nat): nat
    requires b > 0
  {
    (2 * a + b) / (2 * b)
  }

  /** The time, in ticks, of the n-th SYT_INTERVAL sample. */
  function Time(sfc: Sfc, n: nat): nat {
    Round(n * SytInterval(sfc) * TICKS_PER_SECOND, Rate(sfc))
  }

  datatype SytState = SytState(last: nat, state: nat)

  /** Difference to the next time, less one cycle; 44.1 kHz and its multiples need a phase. */
  function PhaseStep(phase: nat): nat {
    var index := phase % 13;
    1386 + (if (index != 0 && index % 4 == 0) || phase == 146 then 1 else 0)
  }

  /** calculate_syt_offset: the new state and the offset or NO_INFO. */
  function CalculateSytOffset(s: SytState, sfc: Sfc): (SytState, nat) {
    var next :=
      if s.last >= TICKS_PER_CYCLE then s.(last := s.last - TICKS_PER_CYCLE)
      else if !Base44100(sfc) then s.(last := s.last + s.state)
      else SytState(s.last + PhaseStep(s.state), if s.state + 1 >= 147 then 0 else s.state + 1);
    (next, if next.last >= TICKS_PER_CYCLE then NO_INFO else next.last)
  }

  function InitialSyt(sfc: Sfc): SytState {
    SytState(TICKS_PER_CYCLE, if sfc == R32000 then 3072 else if Base44100(sfc) then 67 else 1024)
  }

  /** The state before call number `m`. */
  function SytBefore(sfc: Sfc, m: nat): SytState {
    if m == 0 then InitialSyt(sfc) else CalculateSytOffset(SytBefore(sfc, m - 1), sfc).0
  }

  /** What call number `m` returns. */
  function SytOffset(sfc: Sfc, m: nat): nat { CalculateSytOffset(SytBefore(sfc, m), sfc).1 }

  // ---- the times in closed form --------------------------------------------

  lemma DivUnique(a: int, b: int, q: int)
    requires b > 0 && q * b <= a < q * b + b
    ensures a / b == q
  {
    QuotientIs(a, q, a - q * b, b);
  }

  lemma TimeEven(sfc: Sfc, n: nat)
    requires !Base44100(sfc)
    ensures Time(sfc, n) == if sfc == R32000 then 6144 * n else 4096 * n
  {
    var d := if sfc == R32000 then 6144 else 4096;
    assert n * SytInterval(sfc) * TICKS_PER_SECOND == n * (SytInterval(sfc) * TICKS_PER_SECOND);
    assert SytInterval(sfc) * TICKS_PER_SECOND == d * Rate(sfc);
    var a := n * (d * Rate(sfc));
    assert a == d * n * Rate(sfc);
    DivUnique(2 * a + Rate(sfc), 2 * Rate(sfc), d * n);
  }

  /** 655360 / 147 ticks apart, rounded. */
  function Time44(n: nat): nat { 4458 * n + (34 * n + 73) / 147 }

  lemma TimeOdd(sfc: Sfc, n: nat)
    requires Base44100(sfc)
    ensures Time(sfc, n) == Time44(n)
  {
    var r := Rate(sfc);
    var g := r / 147;
    assert r == 147 * g && SytInterval(sfc) * TICKS_PER_SECOND == 655360 * g && g > 0;
    var a := n * SytInterval(sfc) * TICKS_PER_SECOND;
    assert a == n * (SytInterval(sfc) * TICKS_PER_SECOND);
    assert a == 655360 * n * g;
    var q, rest := Time44(n), (34 * n + 73) % 147;
    assert 34 * n + 73 == 147 * ((34 * n + 73) / 147) + rest;
    assert 655360 * n + 73 == 147 * q + rest;
    Scaled(n, g, q, rest);
    DivUnique(2 * a + r, 2 * r, q);
  }

  lemma Scaled(n: nat, g: nat, q: nat, rest: nat)
    requires 655360 * n + 73 == 147 * q + rest && rest < 147 && g > 0
    ensures q * (2 * (147 * g)) <= 2 * (655360 * n * g) + 147 * g < q * (2 * (147 * g)) + 2 * (147 * g)
  {
    var y, z := 655360 * n, 147 * q;
    assert 0 < 2 * y + 147 - 2 * z < 294;
    Times(y, z, g);
    assert q * (2 * (147 * g)) == 2 * (z * g);
  }

  lemma Times(y: int, z: int, g: int)
    requires g > 0 && 0 < 2 * y + 147 - 2 * z < 294
    ensures 2 * (z * g) <= 2 * (y * g) + 147 * g < 2 * (z * g) + 2 * (147 * g)
  {
    var x := 2 * y + 147 - 2 * z;
    assert x * g == 2 * (y * g) + 147 * g - 2 * (z * g);
    assert 0 < x * g < 294 * g;
  }

  /** The phase generator produces exactly the rounded differences. */
  lemma PhaseExact(n: nat)
    ensures Time44(n + 1) - Time44(n) == TICKS_PER_CYCLE + PhaseStep((67 + n) % 147)
  {
    var p := (67 + n) % 147;
    var a, b := p / 13, p % 13;
    var k := (34 * n + 73) / 147;
    var rest := (34 * n + 73) % 147;
    assert rest == (a + 34 * b) % 147 by {
      var t := (67 + n) / 147;
      assert 67 + n == 147 * t + p && p == 13 * a + b;
      assert 34 * n + 73 == 147 * (34 * t + 3 * a - 15) + (a + 34 * b);
      SameRest(34 * n + 73, 34 * t + 3 * a - 15, a + 34 * b);
    }
    assert 34 * n + 73 == 147 * k + rest;
    RestCases(a, b);
    if rest >= 113 {
      DivUnique(34 * (n + 1) + 73, 147, k + 1);
    } else {
      DivUnique(34 * (n + 1) + 73, 147, k);
    }
  }

  lemma SameRest(x: int, t: int, y: int)
    requires x == 147 * t + y
    ensures x % 147 == y % 147
  {
  }

  /** Within a period the rest is at least 113 exactly at the long steps. */
  lemma RestCases(a: nat, b: nat)
    requires b < 13 && 13 * a + b < 147
    ensures (a + 34 * b) % 147 >= 113 <==> (b != 0 && b % 4 == 0) || 13 * a + b == 146
  {
    var x := a + 34 * b;
    if
    case b <= 3 => DivUnique(x, 147, 0);
    case b == 4 => DivUnique(x, 147, 0);
    case 5 <= b <= 8 => DivUnique(x, 147, 1);
    case 9 <= b <= 12 => DivUnique(x, 147, 2);
  }

  // ---- the calls are exact -------------------------------------------------

  /** The state stands for sample `n`: its time is `last` ticks after cycle `m` - 1, and every
      earlier sample belongs to an earlier cycle. */
  ghost predicate StandsFor(sfc: Sfc, s: SytState, m: nat, n: nat) {
    && Time(sfc, n) == TICKS_PER_CYCLE * m - TICKS_PER_CYCLE + s.last
    && (n > 0 ==> Time(sfc, n - 1) < TICKS_PER_CYCLE * m - TICKS_PER_CYCLE)
    && s.state == (if Base44100(sfc) then (67 + n) % 147 else InitialSyt(sfc).state)
  }

  lemma TimeStep(sfc: Sfc, n: nat)
    ensures Time(sfc, n + 1) - Time(sfc, n)
      == TICKS_PER_CYCLE + if Base44100(sfc) then PhaseStep((67 + n) % 147) else InitialSyt(sfc).state
  {
    hide Time;
    if Base44100(sfc) {
      TimeOdd(sfc, n);
      TimeOdd(sfc, n + 1);
      PhaseExact(n);
    } else {
      TimeEven(sfc, n);
      TimeEven(sfc, n + 1);
    }
  }

  lemma NextPhase(n: nat)
    ensures (67 + (n + 1)) % 147 == if (67 + n) % 147 + 1 >= 147 then 0 else (67 + n) % 147 + 1
  {
  }

  lemma StandsForNext(sfc: Sfc, s: SytState, m: nat, n: nat)
    requires StandsFor(sfc, s, m, n)
    ensures StandsFor(sfc, CalculateSytOffset(s, sfc).0, m + 1, if s.last >= TICKS_PER_CYCLE then n else n + 1)
  {
    hide Time, PhaseStep;
    TimeStep(sfc, n);
    NextPhase(n);
  }

  lemma {:induction false} StandsForSome(sfc: Sfc, m: nat) returns (n: nat)
    ensures StandsFor(sfc, SytBefore(sfc, m), m, n)
  {
    hide CalculateSytOffset, StandsFor;
    if m == 0 {
      n := 0;
      StandsForStart(sfc);
    } else {
      n := StandsForSome(sfc, m - 1);
      StandsForNext(sfc, SytBefore(sfc, m - 1), m - 1, n);
      n := if SytBefore(sfc, m - 1).last >= TICKS_PER_CYCLE then n else n + 1;
    }
  }

  lemma StandsForStart(sfc: Sfc)
    ensures StandsFor(sfc, InitialSyt(sfc), 0, 0)
  {
    assert Time(sfc, 0) == 0;
  }

  lemma {:induction false} TimeGrows(sfc: Sfc, a: nat, b: nat)
    requires a <= b
    ensures Time(sfc, a) <= Time(sfc, b)
  {
    hide Time;
    if a < b {
      TimeGrows(sfc, a, b - 1);
      TimeStep(sfc, b - 1);
    }
  }

  /** Sample `n` is due in cycle `m`. */
  predicate DueIn(sfc: Sfc, n: nat, m: nat) {
    TICKS_PER_CYCLE * m <= Time(sfc, n) < TICKS_PER_CYCLE * (m + 1)
  }

  /** Call `m` reports the sample that is due in cycle `m`, by its exact offset in the cycle; it
      reports nothing exactly if none is due. */
  lemma SytExact(sfc: Sfc, m: nat)
    ensures forall n :: DueIn(sfc, n, m) ==> SytOffset(sfc, m) == Time(sfc, n) - TICKS_PER_CYCLE * m
    ensures SytOffset(sfc, m) == NO_INFO <==> !exists n :: DueIn(sfc, n, m)
    ensures SytOffset(sfc, m) == NO_INFO || SytOffset(sfc, m) < TICKS_PER_CYCLE
  {
    hide Time;
    var n := StandsForSome(sfc, m + 1);
    var s := SytBefore(sfc, m + 1);
    assert s == CalculateSytOffset(SytBefore(sfc, m), sfc).0;
    assert s.last < TICKS_PER_CYCLE <==> DueIn(sfc, n, m);
    forall k | DueIn(sfc, k, m) ensures k == n {
      if k < n {
        TimeGrows(sfc, k, n - 1);
      } else if k > n {
        TimeGrows(sfc, n + 1, k);
        TimeStep(sfc, n);
      }
    }
  }

  // ---- data blocks ---------------------------------------------------------

  /** Phases after which the sequence of block numbers repeats. */
  function Period(sfc: Sfc): (n: nat)
    ensures n > 0
  {
    match sfc
    case R88200 => 40
    case R176400 => 20
    case _ => 80
  }

  /** Data blocks of a non-blocking packet in state `state`. */
  function IdealBlocks(sfc: Sfc, state: nat): nat {
    if !Base44100(sfc) then state
    else if sfc == R44100 then
      5 + (if (state % 2 == 1) != (state == 0 || state >= 40) then 1 else 0)
    else 11 * (Code(sfc) / 2) + (if state == 0 then 1 else 0)
  }

  function NextBlockState(sfc: Sfc, state: nat): nat {
    if !Base44100(sfc) then state else if state + 1 >= Period(sfc) then 0 else state + 1
  }

  function InitialBlockState(sfc: Sfc): nat {
    match sfc
    case R32000 => 4 case R48000 => 6 case R96000 => 12 case R192000 => 24
    case _ => 0
  }

  function BlockState(sfc: Sfc, m: nat): nat {
    if m == 0 then InitialBlockState(sfc) else NextBlockState(sfc, BlockState(sfc, m - 1))
  }

  function Blocks(sfc: Sfc, m: nat): nat { IdealBlocks(sfc, BlockState(sfc, m)) }

  /** Data blocks of the first `k` packets. */
  function TotalBlocks(sfc: Sfc, k: nat): nat {
    if k == 0 then 0 else TotalBlocks(sfc, k - 1) + Blocks(sfc, k - 1)
  }

  lemma {:induction false} StateIsPhase(sfc: Sfc, m: nat)
    ensures BlockState(sfc, m) == if Base44100(sfc) then m % Period(sfc) else InitialBlockState(sfc)
  {
    if m > 0 {
      StateIsPhase(sfc, m - 1);
      var p := Period(sfc);
      var q, r := (m - 1) / p, (m - 1) % p;
      assert m - 1 == q * p + r;
      if r + 1 < p {
        QuotientIs(m, q, r + 1, p);
      } else {
        assert (q + 1) * p == q * p + p;
        QuotientIs(m, q + 1, 0, p);
      }
    }
  }

  /** ceil(k * 441 / 80), one packet further. */
  lemma Step44100(k: nat)
    ensures CeilDiv((k + 1) * 44100, 8000) == CeilDiv(k * 44100, 8000) + IdealBlocks(R44100, k % 80)
  {
    var q, r := k / 80, k % 80;
    assert k == 80 * q + r;
    Reduce(k, 44100, 441, 80);
    Reduce(k + 1, 44100, 441, 80);
    var j := r / 2;
    assert r == 2 * j + r % 2;
    Ceil41(r);
    Ceil41(r + 1);
    Periodic(q, r);
    Periodic(q, r + 1);
  }

  /** Within a period, 41 / 80 rounds up as alternating halves with two exceptions. */
  function Up41(r: nat): nat {
    if r % 2 == 0 then (if r == 0 then 0 else r / 2 + 1)
    else if r < 41 then r / 2 + 1 else r / 2 + 2
  }

  lemma Ceil41(r: nat)
    requires r <= 80
    ensures CeilDiv(441 * r, 80) == 5 * r + Up41(r)
  {
    DivUnique(441 * r + 79, 80, 5 * r + Up41(r));
  }

  lemma Periodic(q: nat, r: nat)
    ensures CeilDiv(441 * (80 * q + r), 80) == 441 * q + CeilDiv(441 * r, 80)
  {
    var x := CeilDiv(441 * r, 80);
    assert 441 * (80 * q + r) + 79 == 80 * (441 * q) + (441 * r + 79);
    DivUnique(441 * (80 * q + r) + 79, 80, 441 * q + x);
  }

  /** Cancelling a common factor of rate and cycles. */
  lemma Reduce(k: nat, rate: nat, num: nat, den: nat)
    requires den > 0 && rate * den == num * 8000 && 8000 % den == 0 && rate == num * (8000 / den)
    ensures CeilDiv(k * rate, 8000) == CeilDiv(num * k, den)
  {
    var g, x := 8000 / den, CeilDiv(num * k, den);
    assert 8000 == den * g;
    var rest := (num * k + den - 1) % den;
    assert num * k + den - 1 == den * x + rest;
    assert k * rate == num * k * g;
    Widen(num * k, den, x, rest, g);
    DivUnique(k * rate + 7999, 8000, x);
  }

  lemma Widen(a: nat, den: nat, x: nat, rest: nat, g: nat)
    requires a + den - 1 == den * x + rest && rest < den && g > 0
    ensures x * (den * g) <= a * g + den * g - 1 < x * (den * g) + den * g
  {
    var d := a - den * x;
    assert 1 - den <= d <= 0;
    assert d * g == a * g - x * (den * g);
    assert (1 - den) * g <= d * g <= 0;
  }

  /** ceil(k * (base + 1 / period)) */
  function Multiple(k: nat, base: nat, period: nat): nat
    requires period > 0
  {
    CeilDiv((base * period + 1) * k, period)
  }

  /** The higher multiples of 44.1 kHz: one more block once per period. */
  lemma StepMultiple(k: nat, base: nat, period: nat)
    requires period > 0
    ensures Multiple(k + 1, base, period) == Multiple(k, base, period) + base + if k % period == 0 then 1 else 0
  {
    hide Multiple;
    var q, r := k / period, k % period;
    assert k == period * q + r;
    OncePerPeriod(k, base, period, q, r);
    OneMore(base, k);
    if r + 1 < period {
      OncePerPeriod(k + 1, base, period, q, r + 1);
    } else {
      OneMore(period, q);
      OncePerPeriod(k + 1, base, period, q + 1, 0);
    }
  }

  lemma OneMore(a: nat, b: nat)
    ensures a * (b + 1) == a * b + a
  {
  }

  lemma OncePerPeriod(k: nat, base: nat, period: nat, q: nat, r: nat)
    requires period > 0 && k == period * q + r && r < period
    ensures Multiple(k, base, period) == base * k + q + if r == 0 then 0 else 1
  {
    var x := base * k + q + if r == 0 then 0 else 1;
    assert (base * period + 1) * k == period * (base * k) + k;
    assert period * (base * k + q) == period * (base * k) + period * q;
    assert x * period == period * (base * k) + period * q + if r == 0 then 0 else period;
    DivUnique((base * period + 1) * k + period - 1, period, x);
  }

  lemma BlocksStep(sfc: Sfc, k: nat)
    ensures CeilDiv((k + 1) * Rate(sfc), CYCLES_PER_SECOND) == CeilDiv(k * Rate(sfc), CYCLES_PER_SECOND) + Blocks(sfc, k)
  {
    hide CeilDiv;
    StateIsPhase(sfc, k);
    match sfc
    case R44100 => Step44100(k);
    case R88200 =>
      Reduce(k, 88200, 441, 40);
      Reduce(k + 1, 88200, 441, 40);
      StepMultiple(k, 11, 40);
    case R176400 =>
      Reduce(k, 176400, 441, 20);
      Reduce(k + 1, 176400, 441, 20);
      StepMultiple(k, 22, 20);
    case R32000 => WholeBlocks(k, 4);
    case R48000 => WholeBlocks(k, 6);
    case R96000 => WholeBlocks(k, 12);
    case R192000 => WholeBlocks(k, 24);
  }

  /** `b` blocks per cycle. */
  lemma WholeBlocks(k: nat, b: nat)
    ensures CeilDiv((k + 1) * (b * 8000), CYCLES_PER_SECOND) == CeilDiv(k * (b * 8000), CYCLES_PER_SECOND) + b
  {
    hide CeilDiv;
    WholeQuotient(k, b);
    WholeQuotient(k + 1, b);
    assert (k + 1) * b == k * b + b;
  }

  lemma WholeQuotient(k: nat, b: nat)
    ensures CeilDiv(k * (b * 8000), CYCLES_PER_SECOND) == k * b
  {
    assert k * (b * 8000) == k * b * 8000;
    DivUnique(k * (b * 8000) + 7999, 8000, k * b);
  }

  /** In non-blocking mode the first `k` packets carry exactly the samples of `k` cycles,
      rounded up. */
  lemma {:induction false} BlocksExact(sfc: Sfc, k: nat)
    ensures TotalBlocks(sfc, k) == CeilDiv(k * Rate(sfc), CYCLES_PER_SECOND)
  {
    hide CeilDiv, Blocks;
    if k == 0 {
      CeilZero();
    } else {
      BlocksExact(sfc, k - 1);
      BlocksStep(sfc, k - 1);
    }
  }

  lemma CeilZero()
    ensures CeilDiv(0, CYCLES_PER_SECOND) == 0
  {
  }
}
