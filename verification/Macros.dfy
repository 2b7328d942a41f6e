/** What a macro is made of: its steps' values and its policies. */
module Macros {
  import opened Common
  import opened Names
  import opened Timing

  datatype StepUnit = InMs | InFrames

  datatype StepVal = StepVal(hold: seq<string>, ms: Option<int>, frames: Option<int>, allowShort: bool) {
    function Length(): Duration { Duration(ms, frames) }

    // How the file spells this step's duration.
    function FileUnit(): StepUnit { if frames.Some? && ms.None? then InFrames else InMs }

    // Exactly one unit, and a positive time in it.
    predicate WellTimed() {
      (ms.Some? && frames.None? && ms.value > 0) || (ms.None? && frames.Some? && frames.value > 0)
    }

    function InUnit(unit: StepUnit, n: int): StepVal {
      if unit == InFrames then this.(frames := Some(n), ms := None) else this.(ms := Some(n), frames := None)
    }

    // The same time in the other spelling, converted rather than reinterpreted.
    function Converted(want: StepUnit): StepVal {
      if want == InFrames then
        if frames.None? then InUnit(InFrames, MsFrames(ms.GetOr(50))) else this
      else if ms.None? then InUnit(InMs, FramesMs(frames.GetOr(1)))
      else this
    }
  }

  const FRESH_STEP: StepVal := StepVal([], Some(50), None, false)

  datatype Policy = Policy(
    onRelease: string, retrigger: string, interrupt: string, again: string,
    turboHz: Option<int>, gapMs: Option<int>, disabled: bool)

  // `macroSetPolicy`: the words a policy field accepts; anything else changes nothing.
  function SetPolicy(p: Policy, field: string, value: string): Option<Policy> {
    if field == "on_release" && (value == "finish" || value == "abort") then Some(p.(onRelease := value))
    else if field == "retrigger" && (value == "ignore" || value == "restart") then Some(p.(retrigger := value))
    else if field == "interrupt" && (value == "none" || value == "any-input" || value == "opposing") then
      Some(p.(interrupt := value))
    else if field == "repeat" && (value == "once" || value == "while-held" || value == "turbo") then
      Some(if value == "turbo" && p.turboHz.None? && p.gapMs.None? then p.(again := value, turboHz := Some(10))
           else p.(again := value))
    else None
  }

  function RoundHalfUp(value: real): int { (value + 0.5).Floor }

  // `macroSetTurboRate`: a blank box clears the rate, a negative one changes nothing.
  function SetRate(p: Policy, rate: Option<real>, asGap: bool): Option<Policy> {
    match rate
    case None => Some(p.(turboHz := None, gapMs := None))
    case Some(n) =>
      if n < 0.0 then None
      else if asGap then Some(p.(turboHz := None, gapMs := Some(RoundHalfUp(n))))
      else Some(p.(turboHz := Some(RoundHalfUp(n)), gapMs := None))
  }

  // ----- ready-made motions

  datatype Dir = Up | Down | Left | Right

  const GATE: seq<seq<Dir>> :=
    [[Right], [Down, Right], [Down], [Down, Left], [Left], [Up, Left], [Up], [Up, Right]]

  const GATE_MIRRORED: seq<seq<Dir>> :=
    [[Left], [Down, Left], [Down], [Down, Right], [Right], [Up, Right], [Up], [Up, Left]]

  // The motion of that name; an unknown name has none.
  function MotionOf(name: string): seq<seq<Dir>> {
    if name == "qcf" then [[Down], [Down, Right], [Right]]
    else if name == "qcb" then [[Down], [Down, Left], [Left]]
    else if name == "hcf" then [[Left], [Down, Left], [Down], [Down, Right], [Right]]
    else if name == "hcb" then [[Right], [Down, Right], [Down], [Down, Left], [Left]]
    else if name == "dpf" then [[Right], [Down], [Down, Right]]
    else if name == "dpb" then [[Left], [Down], [Down, Left]]
    else if name == "spdf" then GATE
    else if name == "spdb" then GATE_MIRRORED
    else []
  }

  function DirName(m: Mechanism, d: Dir): string {
    match d
    case Up => MechanismFunction(m, true, true)
    case Down => MechanismFunction(m, true, false)
    case Left => MechanismFunction(m, false, false)
    case Right => MechanismFunction(m, false, true)
  }

  function DirNames(m: Mechanism, dirs: seq<Dir>): seq<string> {
    if dirs == [] then [] else DirNames(m, dirs[..|dirs|-1]) + [DirName(m, dirs[|dirs|-1])]
  }

  // The steps a motion appends, in the mechanism's own names.
  function MotionSteps(m: Mechanism, motion: seq<seq<Dir>>): (r: seq<StepVal>)
    ensures |r| == |motion|
    ensures forall i :: 0 <= i < |motion| ==> r[i] == FRESH_STEP.(hold := DirNames(m, motion[i]))
  {
    seq(|motion|, i requires 0 <= i < |motion| => FRESH_STEP.(hold := DirNames(m, motion[i])))
  }
}
