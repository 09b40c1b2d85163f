// The exposure loop of the IR bridge (bridges/surface-ir-bridge, run_session),
// over exact reals: one correction at a time of exposure, analogue gain or
// digital gain towards a target mean.
module AutoExposure {
  import opened Numbers

  const TARGET_MEAN: real := 110.0
  const TOO_DARK: real := 82.5    // 0.75 of the target
  const TOO_BRIGHT: real := 143.0 // 1.3 of the target
  const GAIN_MIN: int := 16
  const GAIN_MAX: int := 1023
  const DIGITAL_MAX: real := 6.0
  const PERIOD: real := 0.25

  datatype Setting = Setting(exposure: int, gain: int, digital: real)

  // The exposure range of the session, in lines.
  datatype Range = Range(min: int, max: int)

  ghost predicate ValidRange(r: Range) {
    1 <= r.min <= r.max && r.min <= 800
  }

  ghost predicate Valid(k: Setting, r: Range) {
    && r.min <= k.exposure <= r.max
    && GAIN_MIN <= k.gain <= GAIN_MAX
    && 1.0 <= k.digital <= DIGITAL_MAX
    && (k.digital > 1.0 ==> k.exposure == r.max && k.gain == GAIN_MAX)
  }

  function Factor(mean: real): real {
    RealMin(RealMax(TARGET_MEAN / RealMax(mean, 1.0), 0.4), 2.0)
  }

  predicate OffTarget(mean: real) {
    !(TOO_DARK <= mean <= TOO_BRIGHT)
  }

  function Times(x: real, f: real): real {
    x * f
  }

  // int(v * f), for what is not negative.
  function Cut(v: int, f: real): int {
    Times(v as real, f).Floor
  }

  // One correction: the cheapest knob first.
  function Next(k: Setting, mean: real, r: Range): Setting {
    var f := Factor(mean);
    if !OffTarget(mean) then k
    else if f < 1.0 && k.digital > 1.0 then k.(digital := RealMax(k.digital * f, 1.0))
    else if f < 1.0 && k.gain > GAIN_MIN then k.(gain := Max(Cut(k.gain, f), GAIN_MIN))
    else if f < 1.0 then k.(exposure := Max(Cut(k.exposure, f), r.min))
    else if k.exposure < r.max then k.(exposure := Min(Cut(k.exposure, f), r.max))
    else if k.gain < GAIN_MAX then k.(gain := Min(Cut(k.gain, f), GAIN_MAX))
    else k.(digital := RealMin(k.digital * f, DIGITAL_MAX))
  }

  // The setting after frames of these means at these times, and the time of the
  // last correction: one is due when the last was more than the period ago.
  function Corrected(k: Setting, lastAe: real, seen: seq<(real, real)>, r: Range): (Setting, real) {
    if seen == [] then (k, lastAe)
    else
      var n := |seen| - 1;
      var before, (mean, now) := Corrected(k, lastAe, seen[..n], r), seen[n];
      if now - before.1 > PERIOD then (Next(before.0, mean, r), now) else before
  }

  lemma OneMoreFrame(k: Setting, lastAe: real, seen: seq<(real, real)>, shot: (real, real), r: Range)
    ensures var before := Corrected(k, lastAe, seen, r);
            Corrected(k, lastAe, seen + [shot], r) ==
            if shot.1 - before.1 > PERIOD then (Next(before.0, shot.0, r), shot.1) else before
  {
    assert (seen + [shot])[..|seen|] == seen;
  }

  // The loop's own state; `written` counts the set_ctrls calls.
  class Controller {
    const range: Range
    var exposure: int
    var gain: int
    var digital: real
    var lastAe: real
    var written: nat

    function Knobs(): Setting
      reads this
    {
      Setting(exposure, gain, digital)
    }

    constructor (range: Range)
      requires ValidRange(range)
      ensures this.range == range && Valid(Knobs(), range) && lastAe == 0.0
      ensures Knobs() == Setting(Min(800, range.max), 256, 1.0)
    {
      this.range := range;
      exposure, gain, digital := Min(800, range.max), 256, 1.0;
      lastAe, written := 0.0, 0;
    }

    // One frame of mean brightness `mean`, forwarded at time now.
    method Frame(mean: real, now: real)
      requires ValidRange(range) && Valid(Knobs(), range) && mean >= 0.0
      modifies this
      ensures Valid(Knobs(), range)
      ensures if now - old(lastAe) > PERIOD then Knobs() == Next(old(Knobs()), mean, range) && lastAe == now
              else Knobs() == old(Knobs()) && lastAe == old(lastAe)
      ensures written == old(written) + if (exposure, gain) != old((exposure, gain)) then 1 else 0
    {
      hide Factor, Valid, RealMax, RealMin, Max, Min, Cut;
      ghost var k := Knobs();
      NextIsValid(k, mean, range);
      if now - lastAe > PERIOD {
        lastAe := now;
        if !(TARGET_MEAN * 0.75 <= mean <= TARGET_MEAN * 1.3) {
          var factor := Factor(mean);
          var prev := (exposure, gain);
          if factor < 1.0 && digital > 1.0 {
            digital := RealMax(digital * factor, 1.0);
          } else if factor < 1.0 && gain > GAIN_MIN {
            gain := Max(Cut(gain, factor), GAIN_MIN);
          } else if factor < 1.0 {
            exposure := Max(Cut(exposure, factor), range.min);
          } else if exposure < range.max {
            exposure := Min(Cut(exposure, factor), range.max);
          } else if gain < GAIN_MAX {
            gain := Min(Cut(gain, factor), GAIN_MAX);
          } else {
            digital := RealMin(digital * factor, DIGITAL_MAX);
          }
          assert Knobs() == Next(k, mean, range);
          if (exposure, gain) != prev {
            written := written + 1;
          }
        }
      }
    }
  }

  // ------------------------------------------------------- products of reals

  lemma NonNegative(a: real, b: real)
    requires a >= 0.0 && b >= 0.0
    ensures a * b >= 0.0
  {
  }

  lemma MulLe(a: real, b: real, c: real)
    requires a <= b && c >= 0.0
    ensures a * c <= b * c
  {
    assert (b - a) * c >= 0.0;
  }

  lemma MulLt(a: real, b: real, c: real)
    requires a < b && c > 0.0
    ensures a * c < b * c
  {
    assert (b - a) * c > 0.0;
  }

  // Comparing through a positive factor.
  lemma Cancel(a: real, b: real, c: real)
    requires c > 0.0 && a * c <= b * c
    ensures a <= b
  {
    if a > b {
      MulLt(b, a, c);
    }
  }

  lemma CancelLt(a: real, b: real, c: real)
    requires c > 0.0 && a * c < b * c
    ensures a < b
  {
    if a >= b {
      MulLe(b, a, c);
    }
  }

  // ------------------------------------------------------------- the factor

  lemma QuotientAbove(q: real, at: real)
    requires 0.0 < at < TOO_DARK && q * at == TARGET_MEAN
    ensures 3.0 * q > 4.0
  {
    CancelLt(4.0 / 3.0, q, at);
  }

  lemma QuotientBelow(q: real, at: real)
    requires at > TOO_BRIGHT && q * at == TARGET_MEAN
    ensures 13.0 * q < 10.0
  {
    CancelLt(q, 10.0 / 13.0, at);
  }

  // Dark means ask for more than 4/3, at most what reaches the target; bright
  // ones for less than 10/13, and never below what reaches the target.
  lemma FactorBounds(mean: real)
    requires mean >= 0.0
    ensures mean < TOO_DARK ==> 3.0 * Factor(mean) > 4.0 && Factor(mean) <= 2.0 && mean * Factor(mean) <= TARGET_MEAN
    ensures mean > TOO_BRIGHT ==> 0.4 <= Factor(mean) && 13.0 * Factor(mean) < 10.0 && mean * Factor(mean) >= TARGET_MEAN
  {
    var at := RealMax(mean, 1.0);
    var q := TARGET_MEAN / at;
    var f := Factor(mean);
    assert q * at == TARGET_MEAN;
    if mean < TOO_DARK {
      QuotientAbove(q, at);
      MulLe(f, q, at);
      MulLe(mean, at, f);
      assert mean * f <= at * f == f * at <= q * at;
    } else if mean > TOO_BRIGHT {
      QuotientBelow(q, at);
      MulLe(q, f, at);
      assert mean * f == f * at;
    }
  }

  lemma TimesAtLeast(x: real, f: real)
    requires x > 0.0
    ensures f >= 1.0 ==> Times(x, f) >= x
    ensures f < 1.0 ==> Times(x, f) < x
  {
    assert x * f == f * x;
    if f >= 1.0 {
      MulLe(1.0, f, x);
    } else {
      MulLt(f, 1.0, x);
    }
  }

  lemma TimesGrows(x: real, f: real)
    requires x >= 3.0 && 3.0 * f > 4.0
    ensures Times(x, f) > x + 1.0
  {
    NonNegative(x - 3.0, f - 1.0);
    assert x * f == (x - 3.0) * (f - 1.0) + 3.0 * f + x - 3.0;
  }

  // v scaled by f and cut to whole lines.
  lemma Scaled(v: int, f: real)
    requires v >= 1
    ensures f >= 1.0 ==> Cut(v, f) >= v
    ensures f < 1.0 ==> Cut(v, f) < v
    ensures v >= 3 && 3.0 * f > 4.0 ==> Cut(v, f) > v
    ensures Cut(v, f) as real <= Times(v as real, f) < Cut(v, f) as real + 1.0
  {
    hide Times;
    TimesAtLeast(v as real, f);
    if v >= 3 && 3.0 * f > 4.0 {
      TimesGrows(v as real, f);
    }
    FloorFacts(Times(v as real, f), v);
  }

  lemma FloorFacts(y: real, v: int)
    ensures y >= v as real ==> y.Floor >= v
    ensures y < v as real ==> y.Floor < v
    ensures y >= v as real + 1.0 ==> y.Floor > v
    ensures y.Floor as real <= y < y.Floor as real + 1.0
  {
  }

  // ------------------------------------------------------------- invariants

  // Ranges are kept, and digital gain is only used with both sensor knobs at
  // their ceilings.
  lemma NextIsValid(k: Setting, mean: real, r: Range)
    requires ValidRange(r) && Valid(k, r) && mean >= 0.0
    ensures Valid(Next(k, mean, r), r)
  {
    hide Factor;
    FactorBounds(mean);
    var f := Factor(mean);
    Scaled(k.exposure, f);
    Scaled(k.gain, f);
    assert k.digital * f == f * k.digital;
    if f < 1.0 {
      MulLe(f, 1.0, k.digital);
    } else {
      MulLe(1.0, f, k.digital);
    }
  }

  // ------------------------------------------------------------ closed loop

  // The brightness the knobs give of a scene: linear in each of them.
  function Mean(scene: real, k: Setting): real {
    scene * (k.exposure as real * (k.gain as real * k.digital))
  }

  lemma MeanPositive(scene: real, k: Setting)
    requires scene > 0.0 && k.exposure >= 1 && k.gain >= 1 && k.digital >= 1.0
    ensures Mean(scene, k) > 0.0
  {
    MulLt(0.0, k.gain as real, k.digital);
    MulLt(0.0, k.exposure as real, k.gain as real * k.digital);
    MulLt(0.0, scene, k.exposure as real * (k.gain as real * k.digital));
  }

  // Turning one knob scales the mean by as much.
  lemma MeanScales(s: real, e: real, g: real, d: real, n: real)
    ensures s * (n * (g * d)) * e == s * (e * (g * d)) * n
    ensures s * (e * (n * d)) * g == s * (e * (g * d)) * n
    ensures s * (e * (g * n)) * d == s * (e * (g * d)) * n
  {
  }

  // A knob turned from v to n, n at most v * f, with mean * f at most the target.
  lemma RaisedToTarget(mean: real, v: real, n: real, f: real, after: real)
    requires mean > 0.0 && v > 0.0 && n <= v * f && mean * f <= TARGET_MEAN && after * v == mean * n
    ensures after <= TARGET_MEAN
  {
    MulLe(n, v * f, mean);
    MulLe(mean * f, TARGET_MEAN, v);
    assert mean * n == n * mean && v * f * mean == mean * f * v;
    Cancel(after, TARGET_MEAN, v);
  }

  lemma LoweredToTarget(mean: real, v: real, n: real, f: real, after: real)
    requires mean > 0.0 && v > 0.0 && n >= v * f && mean * f >= TARGET_MEAN && after * v == mean * n
    ensures after >= TARGET_MEAN
  {
    MulLe(v * f, n, mean);
    MulLe(TARGET_MEAN, mean * f, v);
    assert mean * n == n * mean && v * f * mean == mean * f * v;
    Cancel(TARGET_MEAN, after, v);
  }

  // Cut to the whole part of v * f, the knob still gives three quarters of the
  // target when at least 3 is left of it.
  lemma CutKeepsThreeQuarters(mean: real, v: real, n: real, f: real, after: real)
    requires mean > 0.0 && v > 0.0 && n >= 3.0 && v * f < n + 1.0
    requires mean * f >= TARGET_MEAN && after * v == mean * n
    ensures after >= TOO_DARK
  {
    MulLe(v * f, n + 1.0, mean);
    MulLe(TARGET_MEAN, mean * f, v);
    assert v * f * mean == mean * f * v;
    assert TARGET_MEAN * v <= (n + 1.0) * mean == n * mean + mean;
    MulLe(3.0, n, mean);
    assert 3.0 * (TARGET_MEAN * v) <= 4.0 * (n * mean) == 4.0 * (after * v);
    Cancel(TOO_DARK, after, v);
  }

  // The knob a correction turns, up when it is dark and down when it is bright.
  lemma DarkTurns(k: Setting, mean: real, r: Range)
    requires ValidRange(r) && Valid(k, r) && 0.0 <= mean < TOO_DARK
    ensures var f := Factor(mean);
            Next(k, mean, r) ==
            if k.exposure < r.max then k.(exposure := Min(Cut(k.exposure, f), r.max))
            else if k.gain < GAIN_MAX then k.(gain := Min(Cut(k.gain, f), GAIN_MAX))
            else k.(digital := RealMin(k.digital * f, DIGITAL_MAX))
  {
    hide Factor, Cut, RealMin, Min;
    FactorBounds(mean);
  }

  lemma BrightTurns(k: Setting, mean: real, r: Range)
    requires ValidRange(r) && Valid(k, r) && mean > TOO_BRIGHT
    ensures var f := Factor(mean);
            Next(k, mean, r) ==
            if k.digital > 1.0 then k.(digital := RealMax(k.digital * f, 1.0))
            else if k.gain > GAIN_MIN then k.(gain := Max(Cut(k.gain, f), GAIN_MIN))
            else k.(exposure := Max(Cut(k.exposure, f), r.min))
  {
    hide Factor, Cut, RealMax, Max;
    FactorBounds(mean);
  }

  // The factor takes the mean to 110, up to doubling it and down to two fifths.
  lemma FactorExactly(mean: real)
    requires mean >= 0.0
    ensures mean <= 55.0 ==> Factor(mean) == 2.0
    ensures 55.0 <= mean <= 275.0 ==> Factor(mean) * mean == 110.0
    ensures mean >= 275.0 ==> Factor(mean) == 0.4
  {
    var m := RealMax(mean, 1.0);
    var q := TARGET_MEAN / m;
    assert q * m == 110.0;
    if mean <= 55.0 {
      Cancel(2.0, q, m);
    } else {
      if mean <= 275.0 {
        Cancel(0.4, q, m);
        Cancel(q, 2.0, m);
      }
      if mean >= 275.0 {
        Cancel(q, 0.4, m);
      }
    }
  }

  // n is v times f cut to an integer, or the limit before it.
  ghost predicate Turned(v: int, n: int, f: real, limit: int) {
    var y := Times(v as real, f);
    if f < 1.0 then (n == limit && y < n as real + 1.0) || (n > limit && n as real <= y < n as real + 1.0)
    else (n == limit && n as real <= y) || (n < limit && n as real <= y < n as real + 1.0)
  }

  ghost predicate TurnedReal(v: real, n: real, f: real, limit: real) {
    n == Times(v, f) || (n == limit && if f < 1.0 then Times(v, f) <= n else n <= Times(v, f))
  }

  // The order of the knobs: from 82.5 to 143 none is touched; below, exposure goes
  // up to its maximum before the gain does, and digital gain comes last; above,
  // the other way round. The one that is turned is turned by the factor.
  lemma KnobsInOrder(k: Setting, mean: real, r: Range)
    requires ValidRange(r) && Valid(k, r) && mean >= 0.0
    ensures var n, f := Next(k, mean, r), Factor(mean);
            && (82.5 <= mean <= 143.0 ==> n == k)
            && (mean < 82.5 ==>
                  if k.exposure < r.max then n == k.(exposure := n.exposure) && Turned(k.exposure, n.exposure, f, r.max)
                  else if k.gain < 1023 then n == k.(gain := n.gain) && Turned(k.gain, n.gain, f, 1023)
                  else n == k.(digital := n.digital) && TurnedReal(k.digital, n.digital, f, 6.0))
            && (mean > 143.0 ==>
                  if k.digital > 1.0 then n == k.(digital := n.digital) && TurnedReal(k.digital, n.digital, f, 1.0)
                  else if k.gain > 16 then n == k.(gain := n.gain) && Turned(k.gain, n.gain, f, 16)
                  else n == k.(exposure := n.exposure) && Turned(k.exposure, n.exposure, f, r.min))
  {
    hide Factor, Cut, Times;
    FactorBounds(mean);
    Scaled(k.exposure, Factor(mean));
    Scaled(k.gain, Factor(mean));
    TimesIs(k.digital, Factor(mean));
  }

  lemma TimesIs(x: real, f: real)
    ensures Times(x, f) == x * f
  {
  }

  // A correction of a dark picture never overshoots the target.
  lemma DarkNeverTurnsBright(scene: real, k: Setting, r: Range)
    requires scene > 0.0 && ValidRange(r) && Valid(k, r) && Mean(scene, k) < TOO_DARK
    ensures Mean(scene, Next(k, Mean(scene, k), r)) <= TARGET_MEAN
  {
    hide Mean, Factor, Next, Cut, RealMin, Min;
    var mean := Mean(scene, k);
    MeanPositive(scene, k);
    FactorBounds(mean);
    DarkTurns(k, mean, r);
    var f := Factor(mean);
    var after := Next(k, mean, r);
    if k.exposure < r.max {
      RaisedExposure(scene, k, f, after.exposure);
    } else if k.gain < GAIN_MAX {
      RaisedGain(scene, k, f, after.gain);
    } else {
      RaisedDigital(scene, k, f, after.digital);
    }
  }

  lemma RaisedExposure(scene: real, k: Setting, f: real, n: int)
    requires k.exposure >= 1 && n <= Cut(k.exposure, f)
    requires Mean(scene, k) > 0.0 && Mean(scene, k) * f <= TARGET_MEAN
    ensures Mean(scene, k.(exposure := n)) <= TARGET_MEAN
  {
    hide Mean;
    TurnExposure(scene, k, n);
    RaisedToTarget(Mean(scene, k), k.exposure as real, n as real, f, Mean(scene, k.(exposure := n)));
  }

  lemma RaisedGain(scene: real, k: Setting, f: real, n: int)
    requires k.gain >= 1 && n <= Cut(k.gain, f)
    requires Mean(scene, k) > 0.0 && Mean(scene, k) * f <= TARGET_MEAN
    ensures Mean(scene, k.(gain := n)) <= TARGET_MEAN
  {
    hide Mean;
    TurnGain(scene, k, n);
    RaisedToTarget(Mean(scene, k), k.gain as real, n as real, f, Mean(scene, k.(gain := n)));
  }

  lemma RaisedDigital(scene: real, k: Setting, f: real, n: real)
    requires k.digital >= 1.0 && n <= k.digital * f
    requires Mean(scene, k) > 0.0 && Mean(scene, k) * f <= TARGET_MEAN
    ensures Mean(scene, k.(digital := n)) <= TARGET_MEAN
  {
    hide Mean;
    TurnDigital(scene, k, n);
    RaisedToTarget(Mean(scene, k), k.digital, n, f, Mean(scene, k.(digital := n)));
  }

  lemma TurnExposure(scene: real, k: Setting, n: int)
    ensures Mean(scene, k.(exposure := n)) * k.exposure as real == Mean(scene, k) * n as real
  {
    MeanScales(scene, k.exposure as real, k.gain as real, k.digital, n as real);
  }

  lemma TurnGain(scene: real, k: Setting, n: int)
    ensures Mean(scene, k.(gain := n)) * k.gain as real == Mean(scene, k) * n as real
  {
    MeanScales(scene, k.exposure as real, k.gain as real, k.digital, n as real);
  }

  lemma TurnDigital(scene: real, k: Setting, n: real)
    ensures Mean(scene, k.(digital := n)) * k.digital == Mean(scene, k) * n
  {
    MeanScales(scene, k.exposure as real, k.gain as real, k.digital, n);
  }

  // Three lines left, or the exposure untouched, keep a bright picture from
  // turning dark.
  lemma ThreeLinesKeepItBright(scene: real, k: Setting, r: Range)
    requires scene > 0.0 && ValidRange(r) && Valid(k, r) && Mean(scene, k) > TOO_BRIGHT
    ensures var after := Next(k, Mean(scene, k), r);
            after.exposure >= 3 || after.exposure == k.exposure ==> Mean(scene, after) >= TOO_DARK
  {
    hide Mean, Factor, Next, Cut, RealMax, Max;
    var mean := Mean(scene, k);
    FactorBounds(mean);
    BrightTurns(k, mean, r);
    var f := Factor(mean);
    Scaled(k.exposure, f);
    Scaled(k.gain, f);
    var after := Next(k, mean, r);
    if k.digital > 1.0 {
      TurnDigital(scene, k, after.digital);
      assert after == k.(digital := after.digital) && after.digital >= k.digital * f;
      LoweredToTarget(mean, k.digital, after.digital, f, Mean(scene, after));
    } else if k.gain > GAIN_MIN {
      TurnGain(scene, k, after.gain);
      CutKeepsThreeQuarters(mean, k.gain as real, after.gain as real, f, Mean(scene, after));
    } else if after.exposure >= 3 {
      TurnExposure(scene, k, after.exposure);
      CutKeepsThreeQuarters(mean, k.exposure as real, after.exposure as real, f, Mean(scene, after));
    }
  }

  // The settings no correction darkens too far: the correction goes to a gain,
  // there is no exposure to take, or what is left of it is three lines or more
  // (or the two of three that a range from two lines up leaves).
  ghost predicate StaysBright(k: Setting, r: Range, lines: int) {
    || k.digital > 1.0 || k.gain > GAIN_MIN || k.exposure == r.min
    || r.min >= 3 || k.exposure >= lines || (r.min == 2 && k.exposure == 3)
  }

  // The factor is 0.4 at least, and more for means that 8-bit pixels can have:
  // eight lines keep three of theirs, seven at a mean of at most 255.
  lemma LinesLeft(k: Setting, mean: real)
    requires k.exposure >= 8 || (k.exposure >= 7 && mean <= 255.0)
    requires mean > TOO_BRIGHT
    ensures Cut(k.exposure, Factor(mean)) >= 3
  {
    var f, e := Factor(mean), k.exposure as real;
    FactorBounds(mean);
    if k.exposure >= 8 {
      MulLe(0.4, f, e);
    } else {
      EightBitFactor(mean);
      MulLe(3.0 / 7.0, f, e);
    }
    assert f * e == e * f;
    FloorFacts(e * f, 2);
  }

  lemma EightBitFactor(mean: real)
    requires TOO_BRIGHT < mean <= 255.0
    ensures Factor(mean) >= 3.0 / 7.0
  {
    var q := TARGET_MEAN / mean;
    assert q * mean == TARGET_MEAN;
    Cancel(3.0 / 7.0, q, mean);
  }

  lemma SafeSettingsStay(scene: real, k: Setting, r: Range, lines: int)
    requires scene > 0.0 && ValidRange(r) && Valid(k, r) && Mean(scene, k) > TOO_BRIGHT
    requires lines == 8 || (lines == 7 && Mean(scene, k) <= 255.0)
    requires StaysBright(k, r, lines)
    ensures Mean(scene, Next(k, Mean(scene, k), r)) >= TOO_DARK
  {
    hide Mean, Factor, Next, Cut, RealMax, Max;
    var mean := Mean(scene, k);
    BrightTurns(k, mean, r);
    FactorBounds(mean);
    Scaled(k.exposure, Factor(mean));
    if k.exposure >= lines {
      LinesLeft(k, mean);
    }
    if r.min == 2 && k.exposure == 3 && k.digital == 1.0 && k.gain == GAIN_MIN {
      TurnExposure(scene, k, 2);
      TwoOfThree(mean, Mean(scene, k.(exposure := 2)));
    } else {
      ThreeLinesKeepItBright(scene, k, r);
    }
  }

  lemma TwoOfThree(mean: real, after: real)
    requires mean > TOO_BRIGHT && after * 3.0 == mean * 2.0
    ensures after >= TOO_DARK
  {
  }

  // A mean at which the correction leaves e lines with too few.
  function DarkeningMean(e: int): real {
    if e <= 2 || e == 4 then 150.0 else if e == 3 || e == 5 then 200.0 else if e == 6 then 230.0 else 270.0
  }

  lemma DarkeningCut(e: int)
    requires 2 <= e <= 7
    ensures Cut(e, Factor(DarkeningMean(e))) == if e <= 3 then 1 else 2
  {
    var m := DarkeningMean(e);
    var f := Factor(m);
    assert f * m == TARGET_MEAN;
    var y := Times(e as real, f);
    assert if e <= 3 then 1.0 <= y < 2.0 else 2.0 <= y < 3.0;
  }

  // The scene that shows it.
  lemma UnsafeSettingsDarken(k: Setting, r: Range) returns (scene: real)
    requires ValidRange(r) && Valid(k, r) && !StaysBright(k, r, 8)
    ensures scene > 0.0 && TOO_BRIGHT < Mean(scene, k) == DarkeningMean(k.exposure)
    ensures Mean(scene, Next(k, Mean(scene, k), r)) < TOO_DARK
  {
    hide Factor, Next, Cut, RealMax;
    var e := k.exposure;
    var mean := DarkeningMean(e);
    scene := mean / (16 * e) as real;
    SceneOf(k, mean);
    BrightTurns(k, mean, r);
    DarkeningCut(e);
    var n := if e <= 3 then 1 else 2;
    TurnExposure(scene, k, n);
    hide Mean;
    CancelLt(Mean(scene, k.(exposure := n)), TOO_DARK, e as real);
  }

  lemma SceneOf(k: Setting, mean: real)
    requires k.exposure >= 1 && k.gain == GAIN_MIN && k.digital == 1.0 && mean > 0.0
    ensures mean / (16 * k.exposure) as real > 0.0
    ensures Mean(mean / (16 * k.exposure) as real, k) == mean
  {
    var x := (16 * k.exposure) as real;
    assert x == k.exposure as real * (k.gain as real * k.digital);
    assert mean / x * x == mean;
    CancelLt(0.0, mean / x, x);
  }

  // A correction never turns a bright picture too dark, whatever the scene, if
  // and only if the setting is one of those.
  lemma BrightNeverTurnsDark(k: Setting, r: Range)
    requires ValidRange(r) && Valid(k, r)
    ensures (forall scene: real :: scene > 0.0 && Mean(scene, k) > TOO_BRIGHT ==>
               Mean(scene, Next(k, Mean(scene, k), r)) >= TOO_DARK)
            <==> StaysBright(k, r, 8)
  {
    hide Mean, Next, Valid;
    if StaysBright(k, r, 8) {
      forall scene: real | scene > 0.0 && Mean(scene, k) > TOO_BRIGHT
        ensures Mean(scene, Next(k, Mean(scene, k), r)) >= TOO_DARK
      {
        SafeSettingsStay(scene, k, r, 8);
      }
    } else {
      var scene := UnsafeSettingsDarken(k, r);
    }
  }

  // With means up to 255, the most 8-bit pixels can have, seven lines are safe
  // as well, and six still are not.
  lemma EightBitNeverTurnsDark(k: Setting, r: Range)
    requires ValidRange(r) && Valid(k, r)
    ensures (forall scene: real :: scene > 0.0 && TOO_BRIGHT < Mean(scene, k) <= 255.0 ==>
               Mean(scene, Next(k, Mean(scene, k), r)) >= TOO_DARK)
            <==> StaysBright(k, r, 7)
  {
    hide Mean, Next, Valid;
    if StaysBright(k, r, 7) {
      forall scene: real | scene > 0.0 && TOO_BRIGHT < Mean(scene, k) <= 255.0
        ensures Mean(scene, Next(k, Mean(scene, k), r)) >= TOO_DARK
      {
        SafeSettingsStay(scene, k, r, 7);
      }
    } else {
      var scene := UnsafeSettingsDarken(k, r);
      assert Mean(scene, k) <= 255.0;
    }
  }

  // Four lines cut to two, for example, leave a picture too dark.
  lemma ThreeLinesAreNeeded()
    ensures var k, r, scene := Setting(4, 16, 1.0), Range(1, 1704), 147.0 / 64.0;
            && Valid(k, r) && Mean(scene, k) == 147.0 > TOO_BRIGHT
            && Next(k, 147.0, r).exposure == 2 && Mean(scene, Next(k, 147.0, r)) == 73.5 < TOO_DARK
  {
    var f := Factor(147.0);
    assert f * 147.0 == 110.0;
    assert 2.0 <= 4.0 * f < 3.0;
  }

  // ------------------------------------------------------------- convergence

  // Corrections for these means, one after the other.
  function After(k: Setting, means: seq<real>, r: Range): Setting
    decreases |means|
  {
    if means == [] then k else After(Next(k, means[0], r), means[1..], r)
  }

  function AllMax(r: Range): Setting { Setting(r.max, GAIN_MAX, DIGITAL_MAX) }
  function AllMin(r: Range): Setting { Setting(r.min, GAIN_MIN, 1.0) }

  function Ceil(x: real): int { -((-x).Floor) }

  // Steps left: one a line, one a gain unit, and thirds of digital gain.
  function DarkSteps(k: Setting, r: Range): int {
    (r.max - k.exposure) + (GAIN_MAX - k.gain) + Ceil(3.0 * (DIGITAL_MAX - k.digital))
  }

  function BrightSteps(k: Setting, r: Range): int {
    (k.exposure - r.min) + (k.gain - GAIN_MIN) + Ceil(13.0 * (k.digital - 1.0) / 3.0)
  }

  // With dark frames every correction makes progress until all knobs are at
  // their maximum, and then changes nothing.
  lemma DarkStepAdvances(k: Setting, mean: real, r: Range)
    requires ValidRange(r) && Valid(k, r) && 3 <= k.exposure && 0.0 <= mean < TOO_DARK
    ensures Valid(Next(k, mean, r), r) && 3 <= Next(k, mean, r).exposure
    ensures DarkSteps(k, r) >= 0 && (DarkSteps(k, r) == 0 <==> k == AllMax(r))
    ensures if k == AllMax(r) then Next(k, mean, r) == k else DarkSteps(Next(k, mean, r), r) < DarkSteps(k, r)
  {
    hide Factor, Times;
    FactorBounds(mean);
    NextIsValid(k, mean, r);
    var f := Factor(mean);
    Scaled(k.exposure, f);
    Scaled(k.gain, f);
    if k.exposure == r.max && k.gain == GAIN_MAX {
      DigitalUp(k.digital, f);
    }
  }

  lemma DigitalUp(d: real, f: real)
    requires d >= 1.0 && 3.0 * f > 4.0
    ensures 3.0 * (d * f) >= 3.0 * d + 1.0
  {
    MulLe(4.0, 3.0 * f, d);
    assert 3.0 * f * d == 3.0 * (d * f);
  }

  lemma DigitalDown(d: real, f: real)
    requires d >= 1.0 && 13.0 * f < 10.0
    ensures 13.0 * (d * f) <= 13.0 * d - 3.0
  {
    MulLe(13.0 * f, 10.0, d);
    assert 13.0 * f * d == 13.0 * (d * f);
  }

  lemma BrightStepAdvances(k: Setting, mean: real, r: Range)
    requires ValidRange(r) && Valid(k, r) && mean > TOO_BRIGHT
    ensures Valid(Next(k, mean, r), r)
    ensures BrightSteps(k, r) >= 0 && (BrightSteps(k, r) == 0 <==> k == AllMin(r))
    ensures if k == AllMin(r) then Next(k, mean, r) == k else BrightSteps(Next(k, mean, r), r) < BrightSteps(k, r)
  {
    hide Factor, Times;
    FactorBounds(mean);
    NextIsValid(k, mean, r);
    var f := Factor(mean);
    Scaled(k.exposure, f);
    Scaled(k.gain, f);
    if k.digital > 1.0 {
      DigitalDown(k.digital, f);
    }
  }

  // Persistently dark frames drive every knob to its maximum, within as many
  // corrections as there are lines, gain units and thirds of digital gain left.
  lemma {:induction false} DarkConverges(k: Setting, means: seq<real>, r: Range)
    requires ValidRange(r) && Valid(k, r) && 3 <= k.exposure
    requires forall i :: 0 <= i < |means| ==> 0.0 <= means[i] < TOO_DARK
    ensures DarkSteps(k, r) <= |means| ==> After(k, means, r) == AllMax(r)
    decreases |means|
  {
    hide Next, Valid, DarkSteps;
    if means != [] {
      DarkStepAdvances(k, means[0], r);
      DarkConverges(Next(k, means[0], r), means[1..], r);
      if k == AllMax(r) {
        DarkStepAdvances(Next(k, means[0], r), means[0], r);
      }
    } else {
      DarkStepAdvances(k, 0.0, r);
    }
  }

  lemma {:induction false} BrightConverges(k: Setting, means: seq<real>, r: Range)
    requires ValidRange(r) && Valid(k, r)
    requires forall i :: 0 <= i < |means| ==> means[i] > TOO_BRIGHT
    ensures BrightSteps(k, r) <= |means| ==> After(k, means, r) == AllMin(r)
    decreases |means|
  {
    hide Next, Valid, BrightSteps;
    if means != [] {
      BrightStepAdvances(k, means[0], r);
      BrightConverges(Next(k, means[0], r), means[1..], r);
      if k == AllMin(r) {
        BrightStepAdvances(Next(k, means[0], r), means[0], r);
      }
    } else {
      BrightStepAdvances(k, 200.0, r);
    }
  }

  // At one or two lines a dark picture is stuck exactly when the factor does
  // not reach the next whole line.
  lemma DarkStallsExactly(k: Setting, mean: real, r: Range)
    requires ValidRange(r) && Valid(k, r) && 0.0 <= mean < TOO_DARK && k.exposure < r.max
    ensures Next(k, mean, r) == k <==> k.exposure as real * Factor(mean) < k.exposure as real + 1.0
    ensures Next(k, mean, r) == k ==> k.exposure < 3
  {
    hide Factor;
    FactorBounds(mean);
    Scaled(k.exposure, Factor(mean));
  }
}
