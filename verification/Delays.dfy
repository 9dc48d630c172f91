/** Seconds to samples (engine/scheduling.c): delays of a task without drift, and starts on a grid.
    Seconds are real numbers; where a whole number of samples goes through seconds and back, the rounding of
    doubles decides, and is modelled. */
module Delays {
  import opened Bits

  /** The sample rate used: 48000 when none is set. */
  function Rate(sampleRate: int): (r: int)
    ensures r > 0
  {
    if sampleRate <= 0 then 48000 else sampleRate
  }

  datatype Delay = Delay(samples: nat, remainder: real)

  /** `task_delay_samples` with the task's `sample_remainder`. */
  function TaskDelay(remainder: real, seconds: real, sampleRate: int): (r: Delay)
    requires 0.0 <= remainder < 1.0
    ensures 0.0 <= r.remainder < 1.0
  {
    if seconds <= 0.0 then Delay(0, remainder)
    else
      var exact := seconds * Rate(sampleRate) as real + remainder;
      NotNegative(seconds, Rate(sampleRate), remainder);
      Delay(exact.Floor, exact - exact.Floor as real)
  }

  /** One second is as many samples as the device has a second, or 48000 if it has no rate. */
  lemma OneSecond(sampleRate: int)
    ensures TaskDelay(0.0, 1.0, sampleRate) == Delay(if sampleRate > 0 then sampleRate else 48000, 0.0)
  {
    assert TaskDelay(0.0, 1.0, sampleRate).samples == Rate(sampleRate);
  }

  lemma NotNegative(seconds: real, rate: int, remainder: real)
    requires seconds > 0.0 && rate > 0 && remainder >= 0.0
    ensures (seconds * rate as real + remainder).Floor >= 0
  {
    assert seconds * rate as real >= 0.0;
  }

  /** The samples of a sequence of delays of one task, and the remainder after them. */
  function AllDelays(remainder: real, waits: seq<real>, sampleRate: int): (r: Delay)
    requires 0.0 <= remainder < 1.0
    ensures 0.0 <= r.remainder < 1.0
    decreases |waits|
  {
    if waits == [] then Delay(0, remainder)
    else
      var first := TaskDelay(remainder, waits[0], sampleRate);
      var rest := AllDelays(first.remainder, waits[1..], sampleRate);
      Delay(first.samples + rest.samples, rest.remainder)
  }

  function TotalSeconds(waits: seq<real>): real {
    if waits == [] then 0.0 else (if waits[0] <= 0.0 then 0.0 else waits[0]) + TotalSeconds(waits[1..])
  }

  /** Rounding never accumulates: after any delays the samples waited are the exact time, cut to a
      whole sample once. */
  lemma {:induction false} NoDrift(remainder: real, waits: seq<real>, sampleRate: int)
    requires 0.0 <= remainder < 1.0
    ensures var r := AllDelays(remainder, waits, sampleRate);
            var exact := TotalSeconds(waits) * Rate(sampleRate) as real + remainder;
            r.samples as real + r.remainder == exact && r.samples == exact.Floor
    decreases |waits|
  {
    hide Rate;
    hide TaskDelay;
    var rate := Rate(sampleRate) as real;
    var r := AllDelays(remainder, waits, sampleRate);
    if waits != [] {
      var first := TaskDelay(remainder, waits[0], sampleRate);
      var wait := if waits[0] <= 0.0 then 0.0 else waits[0];
      OneDelay(remainder, waits[0], sampleRate);
      NoDrift(first.remainder, waits[1..], sampleRate);
      Distributes(wait, TotalSeconds(waits[1..]), rate);
    }
    FloorUnique(r.samples, r.remainder);
  }

  lemma OneDelay(remainder: real, seconds: real, sampleRate: int)
    requires 0.0 <= remainder < 1.0
    ensures var r := TaskDelay(remainder, seconds, sampleRate);
            r.samples as real + r.remainder
            == (if seconds <= 0.0 then 0.0 else seconds) * Rate(sampleRate) as real + remainder
  {
    hide Rate;
  }

  lemma FloorUnique(n: nat, r: real)
    requires 0.0 <= r < 1.0
    ensures (n as real + r).Floor == n
  {
  }

  lemma Distributes(a: real, b: real, rate: real)
    ensures (a + b) * rate == a * rate + b * rate
  {
  }

  // ---- Starts on a grid -----------------------------------------------------------------

  /** The samples from `now` to the next multiple of the grid, never zero. */
  function ToNextMultiple(now: nat, grid: nat): (r: nat)
    requires grid > 0
  {
    if now % grid == 0 then grid else grid - now % grid
  }

  /** A quantised start lies on the grid, after `now`, with no other grid point before it. */
  lemma NextMultiple(now: nat, grid: nat, between: nat)
    requires grid > 0
    ensures var t := now + ToNextMultiple(now, grid);
            t % grid == 0 && now < t <= now + grid && (now < between < t ==> between % grid != 0)
  {
    var q, m := now / grid, now % grid;
    var t := now + ToNextMultiple(now, grid);
    Product(grid, q);
    assert t == grid * (q + 1);
    Multiple(grid, q + 1);
    if now < between < t && between % grid == 0 {
      Strictly(grid, q, between);
      assert false;
    }
  }

  lemma Product(grid: nat, q: nat)
    ensures grid * (q + 1) == grid * q + grid
  {
  }

  lemma Multiple(grid: nat, k: nat)
    requires grid > 0
    ensures (grid * k) % grid == 0
  {
    DivModUnique(grid * k, grid, k, 0);
  }

  lemma Strictly(grid: nat, q: nat, x: nat)
    requires grid > 0 && grid * q < x < grid * (q + 1)
    ensures x % grid != 0
  {
    var k := x / grid;
    assert x == grid * k + x % grid;
    if x % grid == 0 {
      if k <= q {
        Monotone(grid, k, q);
      } else {
        Monotone(grid, q + 1, k);
      }
      assert false;
    }
  }

  lemma Monotone(grid: nat, a: nat, b: nat)
    requires a <= b
    ensures grid * a <= grid * b
  {
  }

  // ---- Doubles ----------------------------------------------------------------------------

  /** 2^-53 */
  const UNIT: real := 1.0 / 9007199254740992.0

  /** Rounding to doubles: no sign changes, and in the range used here, from 2^-32 to 2^53, the error is at
      most one part in 2^53. */
  ghost predicate IsRounding(round: real -> real) {
    forall x: real :: x >= 0.0 ==>
      && round(x) >= 0.0
      && (1.0 / 4294967296.0 <= x <= 9007199254740992.0 ==> x - x * UNIT <= round(x) <= x + x * UNIT)
  }

  type Rounding = f: real -> real | IsRounding(f) witness x => x

  /** The double nearest to `x` is `m / 2^k`, and no other is as near. */
  predicate Nearest(x: real, m: nat, k: nat) {
    var d := Pow2(k) as real;
    && 0x10_0000_0000_0000 < m < 0x20_0000_0000_0000
    && (m as real - 0.5) / d < x < (m as real + 0.5) / d
  }

  /** The normal doubles: the least has the exponent -1022. */
  ghost predicate RoundsToNearest(round: Rounding) {
    forall x: real, m: nat, k: nat :: k <= 1074 && Nearest(x, m, k) ==> round(x) == m as real / Pow2(k) as real
  }

  /** `scheduler_seconds_to_samples` */
  function SecondsToSamples(round: Rounding, seconds: real, sampleRate: int): (r: nat) {
    if seconds > 0.0 then
      NotNegative(seconds, Rate(sampleRate), 0.0);
      round(seconds * Rate(sampleRate) as real).Floor
    else 0
  }

  /** The delay of a quantised start in seconds. */
  function InSeconds(round: Rounding, samples: nat, sampleRate: int): real {
    round(samples as real / Rate(sampleRate) as real)
  }

  /** The delay of a quantised start: samples to seconds and back, both as doubles. */
  function ThroughSeconds(round: Rounding, samples: nat, sampleRate: int): (r: nat) {
    SecondsToSamples(round, InSeconds(round, samples, sampleRate), sampleRate)
  }

  /** The double that is cut to whole samples in the end. */
  function Returned(round: Rounding, samples: nat, sampleRate: int): real {
    round(InSeconds(round, samples, sampleRate) * Rate(sampleRate) as real)
  }

  /** The seconds are positive, and their exact product with the rate is close to the samples. */
  lemma SecondsClose(round: Rounding, samples: nat, sampleRate: int)
    requires 0 < samples < 0x4_0000_0000_0000 && sampleRate < 0x8000_0000
    ensures var q, s := InSeconds(round, samples, sampleRate), samples as real;
            q > 0.0 && s - s * UNIT <= q * Rate(sampleRate) as real <= s + s * UNIT
  {
    hide IsRounding;
    var rate, s := Rate(sampleRate) as real, samples as real;
    Quotient(s, rate);
    QuotientRange(s, rate);
    RoundedQuotient(round, s, s / rate, rate);
  }

  lemma RoundedQuotient(round: Rounding, s: real, x: real, rate: real)
    requires 1.0 / 4294967296.0 <= x <= 9007199254740992.0 && x * rate == s && rate > 0.0
    ensures round(x) > 0.0 && s - s * UNIT <= round(x) * rate <= s + s * UNIT
  {
    hide IsRounding;
    Rounded(round, x);
    Positive(x, round(x));
    Scaled(x, round(x), rate);
  }

  lemma Positive(x: real, q: real)
    requires x >= 1.0 / 4294967296.0 && x - x * UNIT <= q
    ensures q > 0.0
  {
  }

  /** The last rounding does not reach the next whole sample. */
  lemma ReturnedClose(round: Rounding, samples: nat, sampleRate: int)
    requires 0 < samples < 0x4_0000_0000_0000 && sampleRate < 0x8000_0000
    ensures samples as real - 1.0 < Returned(round, samples, sampleRate) < samples as real + 1.0
  {
    hide IsRounding;
    hide InSeconds;
    hide Rate;
    SecondsClose(round, samples, sampleRate);
    LastRounding(round, samples as real, InSeconds(round, samples, sampleRate) * Rate(sampleRate) as real);
  }

  lemma LastRounding(round: Rounding, s: real, p: real)
    requires 1.0 <= s < 1125899906842624.0 && s - s * UNIT <= p <= s + s * UNIT
    ensures s - 1.0 < round(p) < s + 1.0
  {
    hide IsRounding;
    Rounded(round, p);
  }

  lemma ReturnedIs(round: Rounding, samples: nat, sampleRate: int)
    requires 0 < samples < 0x4_0000_0000_0000 && sampleRate < 0x8000_0000
    ensures ThroughSeconds(round, samples, sampleRate) == Returned(round, samples, sampleRate).Floor
  {
    hide IsRounding;
    hide Rate;
    hide InSeconds;
    SecondsPositive(round, samples, sampleRate);
  }

  lemma SecondsPositive(round: Rounding, samples: nat, sampleRate: int)
    requires 0 < samples < 0x4_0000_0000_0000 && sampleRate < 0x8000_0000
    ensures InSeconds(round, samples, sampleRate) > 0.0
  {
    hide IsRounding;
    hide InSeconds;
    hide Rate;
    SecondsClose(round, samples, sampleRate);
  }

  /** On the way through seconds a number of samples loses at most one, and none exactly when the last rounding
      does not come out below it. */
  lemma OneSampleShort(round: Rounding, samples: nat, sampleRate: int)
    requires 0 < samples < 0x4_0000_0000_0000 && sampleRate < 0x8000_0000
    ensures ThroughSeconds(round, samples, sampleRate)
         == if Returned(round, samples, sampleRate) >= samples as real then samples else samples - 1
  {
    hide ThroughSeconds;
    hide Returned;
    ReturnedIs(round, samples, sampleRate);
    ReturnedClose(round, samples, sampleRate);
  }

  lemma Rounded(round: Rounding, x: real)
    requires 1.0 / 4294967296.0 <= x <= 9007199254740992.0
    ensures x - x * UNIT <= round(x) <= x + x * UNIT
  {
  }

  lemma Quotient(a: real, b: real)
    requires b > 0.0
    ensures (a / b) * b == a
  {
  }

  lemma QuotientRange(s: real, rate: real)
    requires 1.0 <= s && 1.0 <= rate <= 2147483648.0
    ensures 1.0 / 4294967296.0 <= s / rate <= s
  {
    var x := s / rate;
    Quotient(s, rate);
    Cancelled(1.0 / 4294967296.0, x, rate);
    Product2(1.0, rate, s);
    Cancelled(x, s, rate);
  }

  lemma Cancelled(a: real, b: real, c: real)
    requires c > 0.0 && a * c <= b * c
    ensures a <= b
  {
  }

  lemma Product2(a: real, b: real, c: real)
    requires a <= b && c > 0.0
    ensures a * c <= b * c && (a < b ==> a * c < b * c)
  {
  }

  lemma Scaled(x: real, q: real, rate: real)
    requires rate > 0.0 && x - x * UNIT <= q <= x + x * UNIT
    ensures x * rate - (x * rate) * UNIT <= q * rate <= x * rate + (x * rate) * UNIT
  {
    Product2(x - x * UNIT, q, rate);
    Product2(q, x + x * UNIT, rate);
    Factor(x, UNIT, rate);
  }

  lemma Factor(x: real, u: real, rate: real)
    ensures (x - x * u) * rate == x * rate - (x * rate) * u
    ensures (x + x * u) * rate == x * rate + (x * rate) * u
  {
  }

  /** A quantised start is on the grid exactly when the delay survives the way through seconds, which is when
      the product comes out no less than the samples, unless every sample is on the grid; otherwise it is one
      sample early. */
  lemma StartOnGrid(round: Rounding, now: nat, grid: nat, sampleRate: int)
    requires 0 < grid < 0x4_0000_0000_0000 && sampleRate < 0x8000_0000
    ensures var left := ToNextMultiple(now, grid);
            var delay := ThroughSeconds(round, left, sampleRate);
            && ((now + delay) % grid == 0 <==> grid == 1 || Returned(round, left, sampleRate) >= left as real)
            && delay == if Returned(round, left, sampleRate) >= left as real then left else left - 1
  {
    hide ThroughSeconds;
    hide Returned;
    hide ToNextMultiple;
    var left := ToNextMultiple(now, grid);
    var delay := ThroughSeconds(round, left, sampleRate);
    NextMultiple(now, grid, 0);
    OneSampleShort(round, left, sampleRate);
    if grid > 1 && delay == left - 1 {
      OneBefore(now + left, grid);
    }
  }

  lemma OneBefore(t: nat, grid: nat)
    requires grid > 1 && t > 0 && t % grid == 0
    ensures (t - 1) % grid != 0
  {
    var k := t / grid;
    assert t == grid * k;
    if k > 0 {
      Product(grid, k - 1);
      DivModUnique(t - 1, grid, k - 1, grid - 1);
    }
  }

  /** At 48000 samples a second, 27 samples come back as 26. */
  lemma StartsEarly(round: Rounding)
    requires RoundsToNearest(round)
    ensures ThroughSeconds(round, 27, 48000) == 26
  {
    hide RoundsToNearest;
    hide Nearest;
    Pow2Values();
    assert Pow2(6) == 64;
    Pow2Add(42, 6);
    var q := 5188146770730811.0 / 9223372036854775808.0;
    assert Nearest(27.0 / 48000.0, 5188146770730811, 63) by { FirstStep(); }
    assert Nearest(q * 48000.0, 7599824371187711, 48) by { SecondStep(); }
    NearestIs(round, 27.0 / 48000.0, 5188146770730811, 63);
    NearestIs(round, q * 48000.0, 7599824371187711, 48);
  }

  lemma NearestIs(round: Rounding, x: real, m: nat, k: nat)
    requires RoundsToNearest(round) && Nearest(x, m, k) && k <= 1074
    ensures round(x) == m as real / Pow2(k) as real
  {
  }

  lemma FirstStep()
    ensures Nearest(27.0 / 48000.0, 5188146770730811, 63)
  {
    Pow2Values();
  }

  lemma SecondStep()
    ensures Nearest(5188146770730811.0 / 9223372036854775808.0 * 48000.0, 7599824371187711, 48)
  {
    Pow2Values();
    assert Pow2(6) == 64;
    Pow2Add(42, 6);
  }
}
