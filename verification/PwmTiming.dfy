/** The period and duty-cycle arithmetic of the buzzer (sensor_hub_buzzer.c). */
module PwmTiming {
  import opened Common

  const DEFAULT_FREQ_HZ: nat := 2400
  const DEFAULT_DUTY_PERMILLE: nat := 500
  const DEFAULT_DURATION_MS: nat := 180

  function SanitizeDuty(duty: nat): (r: nat)
    ensures 1 <= r <= 1000
    ensures r == if 1 <= duty <= 1000 then duty else 500
  {
    if duty == 0 || duty > 1000 then DEFAULT_DUTY_PERMILLE else duty
  }

  function SanitizeFreq(freq: nat): (r: nat)
    ensures r != 0 && r == if freq != 0 then freq else 2400
  {
    if freq == 0 then DEFAULT_FREQ_HZ else freq
  }

  function SanitizeDuration(ms: nat): (r: nat)
    ensures r != 0 && r == if ms != 0 then ms else 180
  {
    if ms == 0 then DEFAULT_DURATION_MS else ms
  }

  /** DIV_ROUND_CLOSEST_ULL. */
  function DivRoundClosest(x: nat, d: nat): nat
    requires d > 0
  {
    (x + d / 2) / d
  }

  function PeriodNs(freq: nat): nat
    requires freq > 0
  {
    DivRoundClosest(1_000_000_000, freq)
  }

  /** The rounded share of the period, before the fallback. */
  function ShareNs(period: nat, duty: nat): nat {
    DivRoundClosest(period * duty, 1000)
  }

  function DutyNs(period: nat, duty: nat): nat {
    if ShareNs(period, duty) == 0 then period / 2 else ShareNs(period, duty)
  }

  // ---------------------------------------------------------------- rounding

  /** (x + d / 2) / d is at least n exactly when 2x + (d even ? d : d - 1) reaches 2nd. */
  lemma RoundsToAtLeast(x: nat, d: nat, n: nat)
    requires d > 0
    ensures DivRoundClosest(x, d) >= n <==> x + d / 2 >= n * d
  {
    DivAtLeast(x + d / 2, d, n);
  }

  lemma PeriodAtLeast(freq: nat, n: nat)
    requires freq > 0
    ensures PeriodNs(freq) >= n <==> 1_000_000_000 + freq / 2 >= n * freq
  {
    RoundsToAtLeast(1_000_000_000, freq, n);
  }

  lemma PeriodBound(freq: nat)
    requires freq > 0
    ensures PeriodNs(freq) <= 1_000_000_000
  {
    PeriodAtLeast(freq, 1_000_000_001);
    assert 1_000_000_001 * freq >= 1_000_000_000 + freq;
  }

  // ---------------------------------------------------------------- what reaches the PWM

  lemma ShareFits(period: nat, duty: nat)
    requires duty <= 1000
    ensures period * duty <= period * 1000 && DutyNs(period, duty) <= period
  {
    assert period * duty + period * (1000 - duty) == period * 1000;
  }

  /** The duty cycle never exceeds the period, and no intermediate value leaves 64 bits. */
  lemma DutyFitsPeriod(freq: U32, duty: nat)
    requires freq > 0
    ensures var p := PeriodNs(freq);
            && DutyNs(p, SanitizeDuty(duty)) <= p
            && 1_000_000_000 + freq / 2 < TWO_TO_THE_64
            && p * SanitizeDuty(duty) + 500 < TWO_TO_THE_64
  {
    var p, s := PeriodNs(freq), SanitizeDuty(duty);
    PeriodBound(freq);
    ShareFits(p, s);
  }

  /** Without the fallback the duty cycle is the requested share to within half a permille unit. */
  lemma DutyIsClosest(period: nat, duty: nat)
    requires ShareNs(period, duty) != 0
    ensures -500 <= 1000 * DutyNs(period, duty) - period * duty <= 500
  {
  }

  /** The fallback is taken exactly for shares that round to nothing. */
  lemma FallbackIff(period: nat, duty: nat)
    ensures ShareNs(period, duty) == 0 <==> period * duty < 500
  {
  }

  /** The PWM is given a nonzero duty cycle exactly up to 666,666,666 Hz, and beyond that up to
      2 GHz for shares of at least one half. */
  lemma AudibleIff(freq: nat, duty: nat)
    requires freq > 0 && 1 <= duty <= 1000
    ensures DutyNs(PeriodNs(freq), duty) >= 1 <==>
            freq <= 666_666_666 || (freq <= 2_000_000_000 && duty >= 500)
  {
    var p := PeriodNs(freq);
    PeriodAtLeast(freq, 1);
    PeriodAtLeast(freq, 2);
    if p >= 2 {
      assert p / 2 >= 1;
    } else if p == 1 {
      assert p * duty == duty;
    } else {
      assert p * duty == 0;
    }
  }

  /** The two frequencies at which the period leaves the range in which the fallback disturbs. */
  lemma PeriodRanges(freq: nat)
    requires freq > 0
    ensures PeriodNs(freq) >= 500 <==> freq <= 2_002_002
    ensures PeriodNs(freq) <= 3 <==> freq >= 285_714_286
  {
    PeriodAtLeast(freq, 500);
    PeriodAtLeast(freq, 4);
  }

  /** Every duty setting keeps its own share exactly up to 2,002,002 Hz. */
  lemma FallbackNeverTakenIff(freq: nat)
    requires freq > 0
    ensures (forall duty :: 1 <= duty <= 1000 ==> ShareNs(PeriodNs(freq), duty) != 0) <==> freq <= 2_002_002
  {
    var p := PeriodNs(freq);
    PeriodRanges(freq);
    forall duty | 1 <= duty <= 1000 && p >= 500
      ensures ShareNs(p, duty) != 0
    {
      assert p * duty >= 500 * 1;
    }
    FallbackIff(p, 1);
  }

  /** A larger duty setting never gives a shorter pulse. */
  ghost predicate DutyMonotone(period: nat) {
    forall a, b :: 1 <= a <= b <= 1000 ==> DutyNs(period, a) <= DutyNs(period, b)
  }

  lemma MonotoneAt(period: nat, a: nat, b: nat)
    requires period >= 500 || period <= 3
    requires 1 <= a <= b
    ensures DutyNs(period, a) <= DutyNs(period, b)
  {
    assert period * a <= period * b;
    FallbackIff(period, a);
    FallbackIff(period, b);
    assert period >= 500 ==> period * a >= 500 * 1;
  }

  /** The fallback breaks that order exactly for periods of 4 to 499 ns: there a share that rounds
      to nothing is replaced by half the period, which is more than the smallest share that does
      not. */
  lemma PeriodMonotoneIff(period: nat)
    ensures DutyMonotone(period) <==> period >= 500 || period <= 3
  {
    if period >= 500 || period <= 3 {
      forall a, b | 1 <= a <= b <= 1000
        ensures DutyNs(period, a) <= DutyNs(period, b)
      {
        MonotoneAt(period, a, b);
      }
    } else {
      var b := 499 / period + 1;
      assert 500 <= period * b < 1000 by {
        assert period * (499 / period) + 499 % period == 499;
        assert period * b == period * (499 / period) + period;
      }
      assert DutyNs(period, b) == 1 && DutyNs(period, 1) == period / 2;
      assert b <= 1000 by {
        assert 1 * b <= period * b;
      }
    }
  }

  /** So the pulse grows with the duty setting exactly up to 2,002,002 Hz, which covers all of the
      first 2 MHz, and from 285,714,286 Hz on. */
  lemma DutyMonotoneIff(freq: nat)
    requires freq > 0
    ensures DutyMonotone(PeriodNs(freq)) <==> freq <= 2_002_002 || freq >= 285_714_286
  {
    PeriodRanges(freq);
    PeriodMonotoneIff(PeriodNs(freq));
  }
}
