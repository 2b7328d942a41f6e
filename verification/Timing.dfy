/** Exact timing arithmetic: frames and milliseconds, the sampling floor, and the auto-fire duty cycle. */
module Timing {
  import opened Common

  const MIN_STEP_MS: int := 33
  const TURBO_MAX_HZ: int := 30

  function Max(a: int, b: int): int { if a < b then b else a }
  function Min(a: int, b: int): int { if a < b then a else b }

  // ----- durations

  // 60 Hz frames to ms, rounded to nearest once.
  function FramesMs(frames: int): int { (frames * 1000 + 30) / 60 }

  // `Math.max(1, Math.round(ms * 60 / 1000))`.
  function MsFrames(ms: int): int { Max(1, (ms * 60 + 500) / 1000) }

  /** Frames to ms is off by at most half a millisecond, and never goes down as frames go up. */
  lemma FramesMsIsNearest(f: int, g: int)
    ensures -30 <= 60 * FramesMs(f) - 1000 * f <= 30
    ensures f <= g ==> FramesMs(f) <= FramesMs(g)
    ensures f < g ==> FramesMs(f) < FramesMs(g)
  {}

  /** Milliseconds as frames: the nearest whole number of frames, halves up, and never less than one. */
  lemma MsFramesIsNearest(ms: int)
    ensures MsFrames(ms) >= 1
    ensures -500 < 1000 * MsFrames(ms) - 60 * ms
    ensures MsFrames(ms) > 1 ==> 1000 * MsFrames(ms) - 60 * ms <= 500
  {}

  /** Toggling a row from frames to ms and back is the identity exactly when it held at least one frame. */
  lemma FramesSurviveToggle(f: int)
    ensures MsFrames(FramesMs(f)) == f <==> f >= 1
  {
    FramesMsIsNearest(f, f);
  }

  /** Toggling from ms to frames and back moves a duration by at most 8 ms exactly when it was at least
      9 ms, and after that one move further toggling changes nothing. */
  lemma MsToggleMovesLittle(ms: int)
    ensures -8 <= FramesMs(MsFrames(ms)) - ms <= 8 <==> ms >= 9
    ensures FramesMs(MsFrames(FramesMs(MsFrames(ms)))) == FramesMs(MsFrames(ms))
  {
    FramesMsIsNearest(MsFrames(ms), MsFrames(ms));
    FramesSurviveToggle(MsFrames(ms));
  }

  /** A step's duration as authored; both or neither unit is a fault the editor names. */
  datatype Duration = Duration(ms: Option<int>, frames: Option<int>) {
    function Requested(): Option<int> {
      if ms.Some? && frames.None? then ms
      else if ms.None? && frames.Some? then Some(FramesMs(frames.value))
      else None
    }

    predicate IsShort() {
      Requested().Some? && Requested().value < MIN_STEP_MS
    }
  }

  function EffectiveMs(d: Duration, allowShort: bool): int {
    match d.Requested()
    case None => 0
    case Some(ms) => if allowShort || ms >= MIN_STEP_MS then ms else MIN_STEP_MS
  }

  /** What a step is played for: the time it was given, in whichever unit, raised to 33 ms unless it is marked; a step
      with both units or none is not played. */
  lemma PlayedFor(n: int, allowShort: bool)
    ensures EffectiveMs(Duration(Some(n), None), allowShort) == if n < 33 && !allowShort then 33 else n
    ensures var ms := EffectiveMs(Duration(None, Some(n)), allowShort);
      if n < 2 && !allowShort then ms == 33 else -30 < 60 * ms - 1000 * n <= 30
    ensures EffectiveMs(Duration(Some(n), Some(n)), allowShort) == 0
    ensures EffectiveMs(Duration(None, None), allowShort) == 0
  {
    assert n < 2 <==> FramesMs(n) < 33;
  }

  datatype Timed = Timed(duration: Duration, allowShort: bool)

  function TotalMs(steps: seq<Timed>): int {
    if steps == [] then 0
    else TotalMs(steps[..|steps|-1]) + EffectiveMs(steps[|steps|-1].duration, steps[|steps|-1].allowShort)
  }

  /** With a duration on every step and no step marked allow-short, every step is seen: the total is
      at least the floor times the number of steps, and it is the plain sum of the authored times
      exactly when no step is short. */
  lemma {:induction false} TotalRespectsFloor(steps: seq<Timed>)
    requires forall s :: s in steps ==> s.duration.Requested().Some? && !s.allowShort
    ensures TotalMs(steps) >= MIN_STEP_MS * |steps|
    ensures TotalMs(steps) >= AuthoredMs(steps)
    ensures TotalMs(steps) == AuthoredMs(steps) <==> forall s :: s in steps ==> !s.duration.IsShort()
  {
    if steps != [] {
      var front, last := steps[..|steps|-1], steps[|steps|-1];
      assert steps == front + [last];
      TotalRespectsFloor(front);
    }
  }

  /** A sequence lasts as long as its steps, one after another. */
  lemma {:induction false} TotalAdds(a: seq<Timed>, b: seq<Timed>, step: Timed)
    ensures TotalMs(a + b) == TotalMs(a) + TotalMs(b)
    ensures TotalMs([step]) == EffectiveMs(step.duration, step.allowShort)
  {
    assert [step][..0] == [];
    if b == [] {
      assert a + b == a;
    } else {
      var n := |b| - 1;
      assert (a + b)[..|a + b|-1] == a + b[..n] && (a + b)[|a + b|-1] == b[n];
      TotalAdds(a, b[..n], step);
    }
  }

  function AuthoredMs(steps: seq<Timed>): int {
    if steps == [] then 0
    else AuthoredMs(steps[..|steps|-1]) + steps[|steps|-1].duration.Requested().GetOr(0)
  }

  // ----- a control's auto-fire

  function Clamped(hz: int): int { Min(Max(hz, 1), TURBO_MAX_HZ) }

  function TurboOnMs(hz: int): (r: int)
    ensures r >= MIN_STEP_MS
  {
    Max((1000 / Clamped(hz) + 1) / 2, MIN_STEP_MS)
  }

  function TurboOffMs(hz: int): (r: int)
    ensures r >= MIN_STEP_MS
  {
    Max(1000 / Clamped(hz) - TurboOnMs(hz), MIN_STEP_MS)
  }

  function NearestHz(cycle: int): int
    requires cycle > 0
  {
    (1000 + cycle / 2) / cycle
  }

  function EffectiveTurboHz(hz: int): int {
    NearestHz(TurboOnMs(hz) + TurboOffMs(hz))
  }

  // The two halves make the whole period of the clamped rate, unless that is below two samples.
  lemma TurboHalves(period: int)
    requires period >= 1
    ensures var on := Max((period + 1) / 2, MIN_STEP_MS);
      on + Max(period - on, MIN_STEP_MS) == Max(period, 2 * MIN_STEP_MS)
  {}

  lemma PeriodAtLeast(c: int)
    requires 1 <= c <= TURBO_MAX_HZ
    ensures 1000 / c >= 33 && (1000 / c) * c > 1000 - c
  {
    var p := 1000 / c;
    assert p * c + 1000 % c == 1000;
  }

  // A cycle too long for c + 1 presses a second is never shown as more than c.
  lemma RateBelow(cycle: int, c: int)
    requires cycle > 0 && 1000 + cycle / 2 < cycle * (c + 1)
    ensures NearestHz(cycle) <= c
  {
    var r := NearestHz(cycle);
    assert r * cycle <= 1000 + cycle / 2;
    assert r > c ==> r * cycle >= (c + 1) * cycle;
  }

  /** Both halves of an auto-fire press survive the sampler, together they are the asked period or two
      samples, and the rate delivered never exceeds the clamped request. */
  lemma TurboIsDeliverable(hz: int)
    ensures TurboOnMs(hz) >= MIN_STEP_MS && TurboOffMs(hz) >= MIN_STEP_MS
    ensures TurboOnMs(hz) + TurboOffMs(hz) == Max(1000 / Clamped(hz), 2 * MIN_STEP_MS)
    ensures EffectiveTurboHz(hz) <= Clamped(hz)
  {
    var c := Clamped(hz);
    PeriodAtLeast(c);
    TurboHalves(1000 / c);
    var cycle := TurboOnMs(hz) + TurboOffMs(hz);
    CycleCoversPeriod(cycle, 1000 / c, c, c);
    RateBelow(cycle, c);
  }

  /** The press and the pause share the period evenly, the press taking the odd millisecond, unless that would leave
      either less than 33 ms. */
  lemma TurboIsEven(hz: int)
    ensures 0 <= TurboOnMs(hz) - TurboOffMs(hz) <= 1
    ensures 1 <= hz <= 30 ==>
      var cycle := TurboOnMs(hz) + TurboOffMs(hz);
      cycle >= 66 && (cycle > 66 ==> hz * cycle <= 1000 < hz * (cycle + 1))
    ensures hz < 1 ==> TurboOnMs(hz) == 500 && TurboOffMs(hz) == 500
    ensures hz > 30 ==> TurboOnMs(hz) == 33 && TurboOffMs(hz) == 33
  {
    var c := Clamped(hz);
    PeriodAtLeast(c);
    TurboHalves(1000 / c);
    EvenHalves(1000 / c);
    assert (1000 / c) * c + 1000 % c == 1000;
  }

  lemma EvenHalves(period: int)
    requires period >= 33
    ensures var on := Max((period + 1) / 2, MIN_STEP_MS); 0 <= on - Max(period - on, MIN_STEP_MS) <= 1
  {}

  /** The rate shown for a cycle is the nearest whole number of cycles a second, halves up. */
  lemma NearestHzIsNearest(cycle: int)
    requires cycle > 0
    ensures 2000 - cycle < 2 * cycle * NearestHz(cycle) <= 2000 + cycle
  {
    var r := NearestHz(cycle);
    assert r * cycle + (1000 + cycle / 2) % cycle == 1000 + cycle / 2;
    assert 2 * cycle * r == 2 * (r * cycle);
  }

  // A cycle no shorter than a rounded period is too long for c + 1, if rounding took little enough off.
  lemma CycleCoversPeriod(cycle: int, period: int, c: nat, lost: int)
    requires cycle >= period && period * c > 1000 - lost && lost <= cycle - cycle / 2
    ensures 1000 + cycle / 2 < cycle * (c + 1)
  {
    assert cycle * c >= period * c;
    assert cycle * (c + 1) == cycle * c + cycle;
  }

  // ----- a macro's repeat

  datatype Rate = Hz(hz: int) | GapMs(gap: int) | NoRate

  // The neutral gap the author asked for between two runs of a sequence `run` ms long.
  function WantedGap(rate: Rate, run: int): int {
    match rate
    case Hz(hz) => Max((1000 + Clamped(hz) / 2) / Clamped(hz) - run, 0)
    case GapMs(gap) => gap
    case NoRate => MIN_STEP_MS
  }

  function Gap(rate: Rate, run: int): int { Max(WantedGap(rate, run), MIN_STEP_MS) }

  function Cycle(rate: Rate, run: nat): (c: int)
    ensures c >= MIN_STEP_MS
  {
    run + Gap(rate, run)
  }

  function MacroHz(rate: Rate, run: nat): int { NearestHz(Cycle(rate, run)) }

  /** From one run's start to the next: the period of the rate asked for, to the nearest millisecond, or the run and the
      gap asked for; and never less than the run and 33 ms. */
  lemma CycleIs(rate: Rate, run: nat)
    ensures match rate
      case GapMs(gap) => Cycle(rate, run) == run + if gap < 33 then 33 else gap
      case NoRate => Cycle(rate, run) == run + 33
      case Hz(hz) =>
        1 <= hz <= 30 ==>
          exists period :: -hz < 2 * (hz * period - 1000) <= hz
            && Cycle(rate, run) == if period < run + 33 then run + 33 else period
    ensures rate.Hz? && rate.hz < 1 ==> Cycle(rate, run) == Cycle(Hz(1), run)
    ensures rate.Hz? && rate.hz > 30 ==> Cycle(rate, run) == Cycle(Hz(30), run)
  {
    if rate.Hz? && 1 <= rate.hz <= 30 {
      var hz := rate.hz;
      var period := (1000 + hz / 2) / hz;
      assert period * hz + (1000 + hz / 2) % hz == 1000 + hz / 2;
      assert hz * period == period * hz;
      assert Cycle(rate, run) == if period < run + 33 then run + 33 else period;
    }
  }

  /** The rates shown are the nearest to what is played: the two halves of a press, or one run to the next. */
  lemma RatesShown(hz: int, rate: Rate, run: nat)
    ensures var cycle := TurboOnMs(hz) + TurboOffMs(hz); 2000 - cycle < 2 * cycle * EffectiveTurboHz(hz) <= 2000 + cycle
    ensures var cycle := Cycle(rate, run); 2000 - cycle < 2 * cycle * MacroHz(rate, run) <= 2000 + cycle
  {
    NearestHzIsNearest(TurboOnMs(hz) + TurboOffMs(hz));
    NearestHzIsNearest(Cycle(rate, run));
  }

  lemma RoundedPeriod(c: int)
    requires 1 <= c <= TURBO_MAX_HZ
    ensures var q := (1000 + c / 2) / c; q >= 33 && q * c > 1000 + c / 2 - c
  {
    var q := (1000 + c / 2) / c;
    assert q * c + (1000 + c / 2) % c == 1000 + c / 2;
  }

  /** A repeating macro never beats the sampler or the request: the gap between runs is at least the
      floor, the cycle is never empty, and however the two roundings fall the rate shown is at most
      the clamped request. */
  lemma MacroRateIsCapped(hz: int, run: nat)
    ensures Gap(Hz(hz), run) >= MIN_STEP_MS
    ensures MacroHz(Hz(hz), run) <= Clamped(hz)
  {
    var c := Clamped(hz);
    RoundedPeriod(c);
    var q, cycle := (1000 + c / 2) / c, Cycle(Hz(hz), run);
    CycleCoversPeriod(cycle, q, c, c - c / 2);
    RateBelow(cycle, c);
  }

  lemma SlowerCycleSlowerRate(a: int, b: int)
    requires 0 < a <= b
    ensures NearestHz(b) <= NearestHz(a)
  {
    var r := NearestHz(a);
    assert 1000 + a / 2 < (r + 1) * a by {
      assert (1000 + a / 2) % a < a && (1000 + a / 2) == r * a + (1000 + a / 2) % a;
      assert (r + 1) * a == r * a + a;
    }
    if r >= 0 {
      assert (r + 1) * (b - a) >= b - a;
      assert (r + 1) * b == (r + 1) * a + (r + 1) * (b - a);
      assert b * (r + 1) == (r + 1) * b;
      RateBelow(b, r);
    }
  }

  /** A longer sequence never repeats faster. */
  lemma LongerRunSlowerRate(rate: Rate, run: nat, longer: nat)
    requires run <= longer
    ensures MacroHz(rate, longer) <= MacroHz(rate, run)
  {
    SlowerCycleSlowerRate(Cycle(rate, run), Cycle(rate, longer));
  }
}
