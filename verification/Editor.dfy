/** The macro editor's module state: step objects on the heap, edited in place. Every method is the
    corresponding event of the draft machine, and the objects it makes are new to the editor. */
module MacroEditor {
  import opened Common
  import opened Names
  import opened Timing
  import opened Macros
  import opened Fold
  import opened Draft
  import DraftInvariant
  import Lens
  import ShapeReport

  class Step {
    var hold: seq<string>
    var ms: Option<int>
    var frames: Option<int>
    var allowShort: bool

    constructor (v: StepVal)
      ensures Value() == v
    {
      hold, ms, frames, allowShort := v.hold, v.ms, v.frames, v.allowShort;
    }

    function Value(): StepVal
      reads this
    {
      StepVal(hold, ms, frames, allowShort)
    }

    method SetTime(unit: StepUnit, n: int)
      modifies this`ms, this`frames
      ensures Value() == old(Value()).InUnit(unit, n)
    {
      if unit == InFrames {
        frames := Some(n);
        ms := None;
      } else {
        ms := Some(n);
        frames := None;
      }
    }

    method Convert(want: StepUnit)
      modifies this`ms, this`frames
      ensures Value() == old(Value()).Converted(want)
    {
      if want == InFrames {
        if frames.None? { SetTime(InFrames, MsFrames(ms.GetOr(50))); }
      } else if ms.None? {
        SetTime(InMs, FramesMs(frames.GetOr(1)));
      }
    }
  }

  /** What a cell click did: the step it wrote, the hold before it, and what changed shape. */
  datatype Outcome = Outcome(step: Step, before: seq<string>, notes: seq<ShapeReport.Note>)

  // What is said of a click on a named column: the diagonals it made or lost.
  function Notes(before: seq<string>, token: string): seq<ShapeReport.Note> {
    if ParseDiagToken(token).Some? then [] else ShapeReport.ShapeChange(before, Lens.Click(before, token))
  }

  // A click is reported when it picks a diagonal, or makes or breaks one.
  ghost predicate Reported(before: seq<string>, token: string) {
    ParseDiagToken(token).Some? || Notes(before, token) != []
  }

  // What a click answers, in the state it was made in.
  ghost function Answer(s: State<Step>, index: int, token: string): Option<Outcome> {
    if !s.Has(index) then None
    else
      var before := s.Val(s.At(index)).hold;
      if Reported(before, token) then Some(Outcome(s.At(index), before, Notes(before, token))) else None
  }

  /** What a click answers, by what it did: something exactly when it picked a diagonal, or some mechanism is shown
      otherwise than before; then the step it wrote, the hold before it, and the report of the change. */
  lemma AnswerSays(s: State<Step>, index: int, token: string)
    ensures var answer := Answer(s, index, token);
      if !s.Has(index) then answer == None
      else
        var step := s.At(index);
        var before, after := s.Val(step).hold, Apply(s, Click(index, token)).Val(step).hold;
        && (answer.Some? <==>
          ParseDiagToken(token).Some? || exists m :: Lens.ShapeOf(before, m) != Lens.ShapeOf(after, m))
        && (answer.Some? ==>
          answer.value.step == step && answer.value.before == before
          && answer.value.notes == if ParseDiagToken(token).Some? then [] else ShapeReport.ShapeChange(before, after))
  {
    if s.Has(index) {
      ReportedIff(s.Val(s.At(index)).hold, Apply(s, Click(index, token)).Val(s.At(index)).hold, token);
    }
  }

  lemma ReportedIff(before: seq<string>, after: seq<string>, token: string)
    requires after == Lens.Click(before, token)
    ensures Reported(before, token) <==>
      ParseDiagToken(token).Some? || exists m :: Lens.ShapeOf(before, m) != Lens.ShapeOf(after, m)
    ensures Notes(before, token) == if ParseDiagToken(token).Some? then [] else ShapeReport.ShapeChange(before, after)
  {
    ShapeReport.SilentIffSameShape(before, after);
  }

  ghost function StepsOf(p: Payload<Step>): set<Step> {
    set k, i | 0 <= k < |p.macros| && 0 <= i < |p.macros[k].steps| :: p.macros[k].steps[i]
  }

  ghost function Among(steps: seq<Step>): set<Step> { set r | r in steps }

  ghost function Values(steps: set<Step>): map<Step, StepVal>
    reads steps
  {
    map r | r in steps :: r.Value()
  }

  class Editor {
    var payload: Option<Payload<Step>>
    var draft: Option<Table<Step>>
    var stepUnits: map<Step, StepUnit>
    var fromDisk: bool
    var seedName: Option<string>
    var chosen: Option<string>
    var dirty: bool
    var sel: Option<int>
    var focused: bool
    var saveAsked: bool
    var lastUnit: StepUnit
    // Every step object the editor has met.
    ghost var known: set<Step>

    ghost predicate Valid()
      reads this
    {
      && (draft.Some? ==> forall r :: r in draft.value.steps ==> r in known)
      && (payload.Some? ==> StepsOf(payload.value) <= known)
    }

    ghost function Now(): State<Step>
      reads this, known
    {
      State(payload, draft, Values(known), stepUnits,
            fromDisk, seedName, chosen, dirty, sel, focused, saveAsked, lastUnit)
    }

    constructor ()
      ensures Valid()
      ensures Now() == State(None, None, map[], map[], false, None, None, false, None, false, false, InMs)
      ensures DraftInvariant.Inv(Now())
    {
      payload, draft, stepUnits, fromDisk, seedName, chosen := None, None, map[], false, None, None;
      dirty, sel, focused, saveAsked, lastUnit, known := false, None, false, false, InMs, {};
    }

    // ----- shared endings

    method IsAnyShort() returns (short: bool)
      requires Valid()
      ensures short <==> AnyShort(Now(), Now().Steps())
    {
      if draft.None? { return false; }
      var steps := draft.value.steps;
      for i := 0 to |steps|
        invariant forall j :: 0 <= j < i ==> !Now().Val(steps[j]).Length().IsShort()
      {
        assert Now().Val(steps[i]) == steps[i].Value();
        if Duration(steps[i].ms, steps[i].frames).IsShort() { return true; }
      }
      return false;
    }

    method Refresh()
      requires Valid()
      modifies this`saveAsked
      ensures Valid() && Now() == Refreshed(old(Now()))
    {
      if draft.None? { return; }
      var short := IsAnyShort();
      saveAsked := saveAsked && short;
    }

    method MarkEdited()
      requires Valid()
      modifies this`dirty, this`saveAsked
      ensures Valid() && Now() == Edited(old(Now()))
    {
      dirty := true;
      saveAsked := false;
      Refresh();
    }

    // ----- edits of one step

    // Each of these writes one field of the editor, or one step object, and nothing else.

    method Point(at: Option<int>)
      requires Valid()
      modifies this`sel
      ensures Valid() && Now() == old(Now()).(sel := at)
    {
      sel := at;
    }

    method PutLastUnit(want: StepUnit)
      requires Valid()
      modifies this`lastUnit
      ensures Valid() && Now() == old(Now()).(lastUnit := want)
    {
      lastUnit := want;
    }

    method PutUnit(step: Step, want: StepUnit)
      requires Valid()
      modifies this`stepUnits
      ensures Valid() && Now() == old(Now()).(units := old(stepUnits)[step := want])
    {
      stepUnits := stepUnits[step := want];
    }

    method PutSteps(steps: seq<Step>)
      requires Valid() && draft.Some? && forall r :: r in steps ==> r in known
      modifies this`draft
      ensures Valid() && Now() == old(Now()).WithSteps(steps)
    {
      draft := Some(draft.value.(steps := steps));
    }

    method PutTriggers(triggers: seq<string>)
      requires Valid() && draft.Some?
      modifies this`draft
      ensures Valid() && Now() == old(Now()).(draft := Some(old(draft).value.(triggers := triggers)))
    {
      draft := Some(draft.value.(triggers := triggers));
    }

    method PutPolicy(policy: Policy)
      requires Valid() && draft.Some?
      modifies this`draft
      ensures Valid() && Now() == old(Now()).WithPolicy(policy)
    {
      draft := Some(draft.value.(policy := policy));
    }

    method PutHold(step: Step, hold: seq<string>)
      requires Valid() && step in known
      modifies step`hold
      ensures Valid() && Now() == old(Now()).Set(step, old(step.Value()).(hold := hold))
    {
      step.hold := hold;
      assert Now().vals == old(Now()).vals[step := step.Value()];
    }

    method PutTime(step: Step, unit: StepUnit, n: int)
      requires Valid() && step in known
      modifies step`ms, step`frames
      ensures Valid() && Now() == old(Now()).Set(step, old(step.Value()).InUnit(unit, n))
    {
      step.SetTime(unit, n);
      assert Now().vals == old(Now()).vals[step := step.Value()];
    }

    method PutConverted(step: Step, want: StepUnit)
      requires Valid() && step in known
      modifies step`ms, step`frames
      ensures Valid() && Now() == old(Now()).Set(step, old(step.Value()).Converted(want))
    {
      step.Convert(want);
      assert Now().vals == old(Now()).vals[step := step.Value()];
    }

    method PutAllowShort(step: Step, on: bool)
      requires Valid() && step in known
      modifies step`allowShort
      ensures Valid() && Now() == old(Now()).Set(step, old(step.Value()).(allowShort := on))
    {
      step.allowShort := on;
      assert Now().vals == old(Now()).vals[step := step.Value()];
    }

    /** Paint or clear one cell. */
    method ToggleCell(index: int, token: string) returns (outcome: Option<Outcome>)
      requires Valid()
      modifies this`dirty, this`saveAsked, this`sel, known
      ensures Valid() && Now() == Clicked(old(Now()), index, token)
      ensures outcome == Answer(old(Now()), index, token)
    {
      if draft.None? || index < 0 || index >= |draft.value.steps| { return None; }
      var step := draft.value.steps[index];
      var before := step.hold;
      assert step in known;
      var after := Clicking(before, token);
      WriteHold(index, after);
      outcome := Report(step, before, after, token);
    }

    // What is said of the click: a pick speaks for itself, a name only when it made or broke a diagonal.
    static method Report(step: Step, before: seq<string>, after: seq<string>, token: string)
      returns (outcome: Option<Outcome>)
      requires after == Lens.Click(before, token)
      ensures outcome ==
        if Reported(before, token) then Some(Outcome(step, before, Notes(before, token))) else None
    {
      if ParseDiagToken(token).Some? { return Some(Outcome(step, before, [])); }
      var notes := ShapeReport.ReportShapeChange(before, after);
      return if notes == [] then None else Some(Outcome(step, before, notes));
    }

    method WriteHold(index: int, hold: seq<string>)
      requires Valid() && Now().Has(index)
      modifies this`dirty, this`saveAsked, this`sel, known
      ensures Valid()
      ensures var s := old(Now());
        Now() == Edited(s.Set(s.At(index), s.Val(s.At(index)).(hold := hold)).(sel := Some(index)))
    {
      var step := draft.value.steps[index];
      assert step in known;
      PutHold(step, hold);
      Point(Some(index));
      MarkEdited();
    }

    // The hold a click leaves, computed the way the page does.
    static method Clicking(hold: seq<string>, token: string) returns (after: seq<string>)
      ensures after == Lens.Click(hold, token)
    {
      match ParseDiagToken(token) {
        case Some(pick) =>
          var on := IsLit(hold, pick.mechanism, pick.diag);
          after := Lens.Others(hold, pick.mechanism);
          if !on { after := after + Pair(pick.mechanism, pick.diag); }
        case None =>
          var at := Lens.FirstMatch(hold, token);
          after := if at < |hold| then hold[..at] + hold[at+1..] else hold + [token];
      }
    }

    // Asked of `fold`, the same function that painted the cell.
    static method IsLit(hold: seq<string>, m: Mechanism, d: Diag) returns (on: bool)
      ensures on <==> Lens.DiagLit(hold, m, d)
    {
      var controls := FoldHold(Lens.Parse(hold));
      on := Shows(controls, m, d);
    }

    static method Shows(controls: seq<Held>, m: Mechanism, d: Diag) returns (on: bool)
      ensures on <==> exists h :: h in controls && h.DiagHeld? && h.diag == d && m in h.mechanisms
    {
      for k := 0 to |controls|
        invariant forall j :: 0 <= j < k ==>
          !(controls[j].DiagHeld? && controls[j].diag == d && m in controls[j].mechanisms)
      {
        if controls[k].DiagHeld? && controls[k].diag == d && m in controls[k].mechanisms {
          assert controls[k] in controls;
          return true;
        }
      }
      return false;
    }

    /** The undo of a click, addressed by the step object. True when it was put back. */
    method RestoreHold(target: Step, hold: seq<string>) returns (restored: bool)
      requires Valid()
      modifies this`dirty, this`saveAsked, this`sel, known
      ensures Valid() && Now() == Restored(old(Now()), target, hold)
      ensures restored <==> target in old(Now()).Steps()
    {
      if draft.None? { return false; }
      var steps := draft.value.steps;
      var at := 0;
      while at < |steps| && steps[at] != target
        invariant 0 <= at <= |steps| && target !in steps[..at]
      {
        assert steps[..at+1] == steps[..at] + [steps[at]];
        at := at + 1;
      }
      assert steps[..|steps|] == steps;
      if at == |steps| { return false; }
      IndexInIs(steps, target, at);
      WriteHold(at, hold);
      return true;
    }

    /** One row's duration, in the unit that row shows. */
    method SetDurationAt(index: int, value: real)
      requires Valid()
      modifies this`dirty, this`saveAsked, this`sel, this`lastUnit, this`stepUnits, known
      ensures Valid() && Now() == DurationSet(old(Now()), index, value)
    {
      if draft.None? || index < 0 || index >= |draft.value.steps| || value <= 0.0 { return; }
      var step := draft.value.steps[index];
      assert step in known;
      var want := if step in stepUnits then stepUnits[step] else step.Value().FileUnit();
      RowTimed(Now(), index, value);
      Retime(index, want, RoundHalfUp(value));
    }

    method Retime(index: int, want: StepUnit, n: int)
      requires Valid() && Now().Has(index)
      modifies this`dirty, this`saveAsked, this`sel, this`lastUnit, this`stepUnits, known
      ensures Valid() && Now() == Retimed(old(Now()), index, want, n)
    {
      var step := draft.value.steps[index];
      assert step in known;
      PutUnit(step, want);
      PutLastUnit(want);
      Point(Some(index));
      PutTime(step, want, n);
      MarkEdited();
    }

    /** Switch one row between ms and frames, converting its time. */
    method SetUnitAt(index: int, want: StepUnit)
      requires Valid()
      modifies this`dirty, this`saveAsked, this`lastUnit, this`stepUnits, known
      ensures Valid() && Now() == UnitSet(old(Now()), index, want)
    {
      ghost var s := Now();
      PutLastUnit(want);
      if draft.None? || index < 0 || index >= |draft.value.steps| {
        Refresh();
        return;
      }
      var step := draft.value.steps[index];
      assert step in known;
      var already := step in stepUnits && stepUnits[step] == want && step.Value().FileUnit() == want;
      Reunit(step, want);
      RowConverted(s, index, want);
      if already { Refresh(); } else { MarkEdited(); }
    }

    method Reunit(step: Step, want: StepUnit)
      requires Valid() && step in known
      modifies this`stepUnits, step`ms, step`frames
      ensures Valid() && Now() == Reunited(old(Now()), step, want)
    {
      PutUnit(step, want);
      PutConverted(step, want);
    }

    method SetAllowShortOn(on: bool)
      requires Valid()
      modifies this`dirty, this`saveAsked, known
      ensures Valid() && Now() == AllowShortSet(old(Now()), on)
    {
      if sel.None? || draft.None? || sel.value < 0 || sel.value >= |draft.value.steps| { return; }
      var step := draft.value.steps[sel.value];
      assert step in known;
      PutAllowShort(step, on);
      MarkEdited();
    }

    // ----- edits of the list

    method SpawnOne(v: StepVal) returns (step: Step)
      requires Valid()
      modifies this`stepUnits, this`known
      ensures Valid() && fresh(step) && step.Value() == v && known == old(known) + {step}
      ensures Now() == old(Now()).(
        vals := old(Now()).vals[step := v], units := old(Now()).units[step := v.FileUnit()])
    {
      step := new Step(v);
      assert step !in known;
      known := known + {step};
      stepUnits := stepUnits[step := v.FileUnit()];
      assert Now().vals == old(Now()).vals[step := v];
    }

    // Allocates one new step per value and remembers its unit.
    method Spawn(vs: seq<StepVal>) returns (made: seq<Step>)
      requires Valid()
      modifies this`stepUnits, this`known
      ensures Valid() && |made| == |vs| && Now() == Adopt(old(Now()), made, vs)
      ensures Distinct(made) && fresh(Among(made))
      ensures known == old(known) + Among(made)
    {
      made := [];
      for i := 0 to |vs|
        invariant Valid() && |made| == i && Now() == Adopt(old(Now()), made, vs[..i])
        invariant Distinct(made) && fresh(Among(made))
        invariant known == old(known) + Among(made)
      {
        var step := SpawnOne(vs[i]);
        OneMoreMade(old(Now()), made, step, vs, i);
        made := made + [step];
      }
      assert vs[..|vs|] == vs;
    }

    method InsertStep(k: int) returns (ghost made: seq<Step>)
      requires Valid() && draft.Some? && 0 <= k <= |draft.value.steps|
      modifies this`draft, this`dirty, this`saveAsked, this`sel, this`stepUnits, this`known
      ensures Valid() && Now() == Inserted(old(Now()), k, made)
      ensures |made| == 1 && Distinct(made) && fresh(Among(made))
      ensures known == old(known) + Among(made)
    {
      var step := SpawnOne(FRESH_STEP);
      var steps := draft.value.steps;
      assert Adopt(old(Now()), [step][..0], [FRESH_STEP][..0]) == old(Now());
      assert Now() == Adopt(old(Now()), [step], [FRESH_STEP]);
      PutSteps(steps[..k] + [step] + steps[k..]);
      Point(Some(k));
      MarkEdited();
      made := [step];
    }

    method MoveStep(i: int, k: int)
      requires Valid() && Now().Has(i) && Now().Has(k)
      modifies this`draft, this`dirty, this`saveAsked, this`sel
      ensures Valid() && Now() == Moved(old(Now()), i, k)
    {
      var steps := draft.value.steps;
      var rest := steps[..i] + steps[i+1..];
      assert forall r :: r in rest ==> r in steps;
      PutSteps(rest[..k] + [steps[i]] + rest[k..]);
      Point(Some(k));
      MarkEdited();
    }

    // Deleting the last remaining step empties it instead.
    method DeleteAt(i: int)
      requires Valid() && Now().Has(i)
      modifies this`draft, this`dirty, this`saveAsked, this`sel, known
      ensures Valid() && Now() == Deleted(old(Now()), i)
    {
      var steps := draft.value.steps;
      if |steps| == 1 {
        var step := steps[0];
        assert step in known;
        PutHold(step, []);
        Point(Some(0));
        MarkEdited();
        return;
      }
      PutSteps(steps[..i] + steps[i+1..]);
      Point(Some(Min(i, |steps| - 2)));
      MarkEdited();
    }

    method ToggleUnitAt(i: int)
      requires Valid() && Now().Has(i)
      modifies this`dirty, this`saveAsked, this`sel, this`lastUnit, this`stepUnits, known
      ensures Valid() && Now() == Rowed(old(Now()), ToggleUnit, i)
    {
      var step := draft.value.steps[i];
      assert step in known;
      var unit := if step in stepUnits then stepUnits[step] else step.Value().FileUnit();
      Point(Some(i));
      SetUnitAt(i, if unit == InFrames then InMs else InFrames);
    }

    method SelectAt(i: int)
      requires Valid()
      modifies this`saveAsked, this`sel
      ensures Valid() && Now() == Selected(old(Now()), i)
    {
      if draft.None? || i < 0 || i >= |draft.value.steps| { return; }
      Point(Some(i));
      Refresh();
    }

    /** Add, insert, delete, move, select a step or toggle its unit. */
    method DoStepVerb(verb: Verb, index: int) returns (ghost made: seq<Step>)
      requires Valid()
      modifies this`draft, this`dirty, this`saveAsked, this`sel, this`lastUnit, this`stepUnits, this`known, known
      ensures Valid() && Now() == Verbed(old(Now()), verb, index, made)
      ensures MadeEnough(old(Now()), StepVerb(verb, index, made))
      ensures Distinct(made) && fresh(Among(made))
      ensures known == old(known) + Among(made)
    {
      made := [];
      if draft.None? { return; }
      var n := |draft.value.steps|;
      var at: Option<int> := None;
      match verb {
        case AddStep => at := Some(n);
        case InsertAbove => if 0 <= index <= n { at := Some(index); }
        case InsertBelow => if 0 <= index < n { at := Some(index + 1); }
        case _ =>
      }
      if at.Some? { made := InsertStep(at.value); }
      else if 0 <= index < n { ChangeStep(verb, index); }
    }

    // The verbs that make no step.
    method ChangeStep(verb: Verb, index: int)
      requires Valid() && Now().Has(index) && !(verb.AddStep? || verb.InsertAbove? || verb.InsertBelow?)
      modifies this`draft, this`dirty, this`saveAsked, this`sel, this`lastUnit, this`stepUnits, known
      ensures Valid() && Now() == Rowed(old(Now()), verb, index)
    {
      match verb {
        case DeleteStep => DeleteAt(index);
        case ToggleUnit => ToggleUnitAt(index);
        case MoveUp => if index > 0 { MoveStep(index, index - 1); }
        case MoveDown => if index < |draft.value.steps| - 1 { MoveStep(index, index + 1); }
        case SelectStep => SelectAt(index);
      }
    }

    /** Append a ready-made motion. */
    method AppendMotion(motion: string, m: Mechanism) returns (ghost made: seq<Step>)
      requires Valid()
      modifies this
      ensures Valid() && Now() == Apply(old(Now()), InsertMotion(motion, m, made))
      ensures MadeEnough(old(Now()), InsertMotion(motion, m, made))
      ensures Distinct(made) && fresh(Among(made))
      ensures known == old(known) + Among(made)
    {
      made := AppendSteps(MotionSteps(m, MotionOf(motion)));
    }

    method AppendSteps(vs: seq<StepVal>) returns (ghost made: seq<Step>)
      requires Valid()
      modifies this`draft, this`dirty, this`saveAsked, this`sel, this`stepUnits, this`known
      ensures Valid() && Now() == MotionInserted(old(Now()), vs, made)
      ensures |made| == if old(draft).Some? then |vs| else 0
      ensures Distinct(made) && fresh(Among(made))
      ensures known == old(known) + Among(made)
    {
      made := [];
      if draft.None? || vs == [] { return; }
      var first := |draft.value.steps|;
      var spawned := Spawn(vs);
      PutSteps(draft.value.steps + spawned);
      Point(Some(first));
      MarkEdited();
      made := spawned;
    }

    // ----- policies and flags

    method ChangePolicyTo(field: string, word: string)
      requires Valid()
      modifies this`draft, this`dirty, this`saveAsked
      ensures Valid() && Now() == Apply(old(Now()), ChangePolicy(field, word))
    {
      if draft.None? { return; }
      var next := SetPolicy(draft.value.policy, field, word);
      if next.None? { return; }
      PutPolicy(next.value);
      MarkEdited();
    }

    method ChangeRateTo(rate: Option<real>, asGap: bool)
      requires Valid()
      modifies this`draft, this`dirty, this`saveAsked
      ensures Valid() && Now() == Apply(old(Now()), ChangeRate(rate, asGap))
    {
      if draft.None? { return; }
      var next := SetRate(draft.value.policy, rate, asGap);
      if next.None? { return; }
      PutPolicy(next.value);
      MarkEdited();
    }

    method SetFocused(on: bool)
      requires Valid()
      modifies this`focused
      ensures Valid() && Now() == Apply(old(Now()), Focus(on))
    {
      focused := on;
    }

    method AskAboutShortSteps() returns (asked: bool)
      requires Valid()
      modifies this`saveAsked
      ensures Valid() && Now() == Apply(old(Now()), AskShort)
      ensures asked <==> draft.Some? && AnyShort(old(Now()), old(Now()).Steps())
    {
      if draft.None? { return false; }
      var short := IsAnyShort();
      if !short { return false; }
      ghost var s := Now();
      saveAsked := true;
      assert Now() == s.(saveAsked := true);
      AskedStands(s);
      Refresh();
      return true;
    }

    method ClearShortStepQuestion()
      requires Valid()
      modifies this`saveAsked
      ensures Valid() && Now() == Apply(old(Now()), ClearQuestion)
    {
      if !saveAsked { return; }
      saveAsked := false;
      Refresh();
    }

    // This draft is what the file holds under that name, untouched.
    method Install(table: Option<Table<Step>>, disk: bool, name: Option<string>)
      requires table.Some? ==> forall r :: r in table.value.steps ==> r in known
      requires payload.Some? ==> StepsOf(payload.value) <= known
      modifies this`draft, this`fromDisk, this`seedName, this`chosen, this`dirty, this`saveAsked
      ensures Valid() && Now() == old(Now()).(draft := table, fromDisk := disk, seedName := name, chosen := name,
        dirty := false, saveAsked := false)
    {
      draft, fromDisk, seedName, chosen, dirty, saveAsked := table, disk, name, name, false, false;
      assert Values(known) == old(Values(known));
    }

    method MarkMacroSaved(name: string)
      requires Valid()
      modifies this`draft, this`fromDisk, this`seedName, this`chosen, this`dirty, this`saveAsked
      ensures Valid() && Now() == Apply(old(Now()), MarkSaved(name))
    {
      Install(if draft.Some? then Some(draft.value.(name := name)) else None, true, Some(name));
      Refresh();
    }

    // ----- seeding and polling

    // The values of a macro's steps, read off its objects.
    method ReadValues(steps: seq<Step>) returns (vs: seq<StepVal>)
      requires forall r :: r in steps ==> r in known
      ensures vs == Vals(Now(), steps)
    {
      vs := [];
      for i := 0 to |steps|
        invariant |vs| == i && forall j :: 0 <= j < i ==> vs[j] == Now().Val(steps[j])
      {
        assert steps[i] in steps;
        vs := vs + [steps[i].Value()];
      }
    }

    method Find(list: seq<Table<Step>>, want: string) returns (k: int)
      ensures k == FindMacro(list, want)
    {
      k := 0;
      while k < |list| && Lower(list[k].name) != want
        invariant 0 <= k <= |list| && FindMacro(list, want) == k + FindMacro(list[k..], want)
      {
        assert list[k..][1..] == list[k+1..];
        k := k + 1;
      }
    }

    // Install, point at a step, repaint: what every seed ends with.
    method Open(table: Option<Table<Step>>, disk: bool, name: Option<string>, at: Option<int>)
      requires table.Some? ==> forall r :: r in table.value.steps ==> r in known
      requires payload.Some? ==> StepsOf(payload.value) <= known
      modifies this`draft, this`fromDisk, this`seedName, this`chosen, this`dirty, this`saveAsked, this`sel
      ensures Valid() && Now() == old(Now()).(draft := table, fromDisk := disk, seedName := name, chosen := name,
        dirty := false, saveAsked := false, sel := at)
    {
      Install(table, disk, name);
      sel := at;
      Refresh();
    }

    method Clone(steps: seq<Step>) returns (made: seq<Step>)
      requires Valid() && forall r :: r in steps ==> r in known
      modifies this`stepUnits, this`known
      ensures Distinct(made) && |made| == |steps| && fresh(Among(made))
      ensures Valid() && Now() == Adopt(old(Now()), made, Vals(old(Now()), steps))
      ensures known == old(known) + Among(made)
    {
      var vs := ReadValues(steps);
      made := Spawn(vs);
    }

    method OpenMacro(found: Table<Step>) returns (made: seq<Step>)
      requires Valid() && forall r :: r in found.steps ==> r in known
      modifies this`draft, this`fromDisk, this`seedName, this`chosen, this`dirty, this`saveAsked, this`sel,
        this`stepUnits, this`known
      ensures Distinct(made) && |made| == |found.steps| && fresh(Among(made))
      ensures Valid() && Now() == Adopt(old(Now()), made, Vals(old(Now()), found.steps)).(
        chosen := Some(found.name), draft := Some(found.(steps := made)), fromDisk := true,
        seedName := Some(found.name), dirty := false, saveAsked := false, sel := KeptSelection(old(Now()), found))
      ensures known == old(known) + Among(made)
    {
      var kept := if chosen.Some? && Lower(found.name) == Lower(chosen.value) && sel.Some? && sel.value < |found.steps|
                  then sel else None;
      made := Clone(found.steps);
      Open(Some(found.(steps := made)), true, Some(found.name), kept);
    }

    method Choose(name: Option<string>) returns (k: int)
      ensures k == Found(Now(), name)
    {
      var list := if payload.Some? then payload.value.macros else [];
      var selected := if payload.Some? then payload.value.selected else None;
      k := Find(list, Wanted(name, chosen, selected));
      if k == |list| && name.None? { k := 0; }
    }

    /** Point the editor at one of the payload's macros, discarding whatever draft was open. */
    method SeedMacro(name: Option<string>) returns (ghost made: seq<Step>)
      requires Valid()
      modifies this`draft, this`fromDisk, this`seedName, this`chosen, this`dirty, this`saveAsked, this`sel,
        this`stepUnits, this`known
      ensures Valid() && Now() == Seeded(old(Now()), name, made)
      ensures |made| == SeedNeeds(old(Now()), name) && Distinct(made) && fresh(Among(made))
      ensures known == old(known) + Among(made)
    {
      var list := if payload.Some? then payload.value.macros else [];
      var k := Choose(name);
      if k == |list| {
        made := [];
        Open(None, false, None, None);
      } else {
        assert forall r :: r in list[k].steps ==> r in StepsOf(payload.value);
        made := OpenMacro(list[k]);
      }
    }

    // The macro half of applying a payload already stored.
    method ShowPayload() returns (ghost made: seq<Step>)
      requires Valid()
      modifies this`draft, this`fromDisk, this`seedName, this`chosen, this`dirty, this`saveAsked, this`sel,
        this`stepUnits, this`known
      ensures Valid() && Now() == Shown(old(Now()), made)
      ensures Seeds(old(Now())) ==> |made| == SeedNeeds(old(Now()), None)
      ensures Distinct(made) && fresh(Among(made))
      ensures known == old(known) + Among(made)
    {
      made := [];
      if draft.None? || !(dirty || focused) {
        made := SeedMacro(None);
        return;
      }
      KeepDraft();
    }

    // A draft somebody has their hands on keeps everything but its triggers.
    method KeepDraft()
      requires Valid() && !Seeds(Now())
      modifies this`draft, this`saveAsked
      ensures Valid() && Now() == Shown(old(Now()), [])
    {
      var list := if payload.Some? then payload.value.macros else [];
      var k := Find(list, Lower(draft.value.name));
      if k < |list| { PutTriggers(list[k].triggers); }
      Refresh();
    }

    method Store(p: Payload<Step>)
      requires Valid() && StepsOf(p) !! known
      modifies this`payload, this`known
      ensures Valid() && Now() == Arrived(old(Now()), p, old(Values(StepsOf(p))))
      ensures known == old(known) + StepsOf(p)
    {
      payload := Some(p);
      known := known + StepsOf(p);
      assert Values(known) == old(Values(known)) + Values(StepsOf(p));
    }

    /** A poll arrives: its step objects are new to the editor. */
    method ApplyMap(p: Payload<Step>) returns (ghost made: seq<Step>)
      requires Valid() && StepsOf(p) !! known
      modifies this
      ensures Valid() && Now() == Polled(old(Now()), p, old(Values(StepsOf(p))), made)
      ensures MadeEnough(old(Now()), Poll(p, old(Values(StepsOf(p))), made))
      ensures Distinct(made) && fresh(Among(made))
      ensures known == old(known) + StepsOf(p) + Among(made)
    {
      ghost var was, incoming := Now(), Values(StepsOf(p));
      Store(p);
      ghost var arrived := Now();
      assert arrived == Arrived(was, p, incoming);
      made := ShowPayload();
      assert Now() == Shown(arrived, made);
    }

    method ResetDraft()
      requires Valid()
      modifies this`draft, this`fromDisk, this`seedName, this`chosen, this`dirty, this`saveAsked, this`sel,
        this`lastUnit
      ensures Valid() && Now() == Reset(old(Now()))
    {
      Install(None, false, None);
      Point(None);
      PutLastUnit(InMs);
    }

    /** Another slot is picked: the draft goes, and the last payload is shown again. */
    method PickSlot() returns (ghost made: seq<Step>)
      requires Valid()
      modifies this
      ensures Valid() && Now() == SlotSelected(old(Now()), made)
      ensures MadeEnough(old(Now()), SelectSlot(made)) && Distinct(made) && fresh(Among(made))
      ensures known == old(known) + Among(made)
    {
      ResetDraft();
      made := [];
      if payload.Some? { made := ShowPayload(); }
    }
  }

  // The two edits of a row's time, its unit written down before the time.
  ghost function Retimed(s: State<Step>, i: int, want: StepUnit, n: int): State<Step>
    requires s.Has(i)
  {
    var r := s.At(i);
    Edited(s.(units := s.units[r := want], lastUnit := want, sel := Some(i)).Set(r, s.Val(r).InUnit(want, n)))
  }

  ghost function Reunited(s: State<Step>, r: Step, want: StepUnit): State<Step> {
    s.(units := s.units[r := want]).Set(r, s.Val(r).Converted(want))
  }

  lemma RowTimed(s: State<Step>, i: int, value: real)
    requires s.Has(i) && value > 0.0
    ensures DurationSet(s, i, value) == Retimed(s, i, s.Unit(s.At(i)), RoundHalfUp(value))
  {}

  lemma RowConverted(s: State<Step>, i: int, want: StepUnit)
    requires s.Has(i)
    ensures var r := s.At(i);
      var t := Reunited(s.(lastUnit := want), r, want);
      UnitSet(s, i, want)
        == if r in s.units && s.units[r] == want && s.Val(r).FileUnit() == want then Refreshed(t) else Edited(t)
  {}

  // One more new step, with the next of the values.
  lemma OneMoreMade(s: State<Step>, made: seq<Step>, step: Step, vs: seq<StepVal>, i: nat)
    requires i < |vs| && |made| == i
    ensures var t := Adopt(s, made, vs[..i]);
      Adopt(s, made + [step], vs[..i+1])
        == t.(vals := t.vals[step := vs[i]], units := t.units[step := vs[i].FileUnit()])
    ensures Among(made + [step]) == Among(made) + {step}
    ensures Distinct(made) && step !in Among(made) ==> Distinct(made + [step])
  {
    assert vs[..i+1][..i] == vs[..i] && (made + [step])[..i] == made;
    assert step !in Among(made) ==> forall j :: 0 <= j < |made| ==> made[j] in made && made[j] != step;
  }

  // A question just asked about a short step stands.
  lemma AskedStands(s: State<Step>)
    requires s.draft.Some? && AnyShort(s, s.Steps())
    ensures Refreshed(s.(saveAsked := true)) == Asked(s)
  {
    var i :| 0 <= i < |s.Steps()| && s.Val(s.Steps()[i]).Length().IsShort();
    assert s.(saveAsked := true).Val(s.Steps()[i]) == s.Val(s.Steps()[i]);
  }

  lemma {:induction false} IndexInIs(steps: seq<Step>, r: Step, k: int)
    requires 0 <= k < |steps| && steps[k] == r && r !in steps[..k]
    ensures IndexIn(steps, r) == k
  {
    if k > 0 {
      assert steps[0] in steps[..k];
      assert forall q :: q in steps[1..][..k-1] ==> q in steps[..k];
      IndexInIs(steps[1..], r, k - 1);
    }
  }
}
