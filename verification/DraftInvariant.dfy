/** What every edit, poll and seed keeps, one by one and over whole runs. */
module DraftInvariant {
  import opened Common
  import opened Names
  import opened Timing
  import opened Macros
  import opened Draft
  import Lens

  // ----- the editor invariant

  // A step of the draft is an object of its own, with a value and a unit remembered for it.
  ghost predicate Own<T>(s: State<T>, r: T) {
    r in s.vals && r in s.units && !InPayload(s.payload, r)
  }

  ghost predicate DraftSound<T>(s: State<T>) {
    Distinct(s.Steps())
    && (forall r :: r in s.Steps() ==> Own(s, r))
    && (s.sel.Some? ==> 0 <= s.sel.value < |s.Steps()|)
    && (s.saveAsked ==> AnyShort(s, s.Steps()))
  }

  /** Distinct step objects, none of them the payload's; the selection in range; a question only while a step is
      short. Whatever the file says, this holds. */
  ghost predicate Sound<T>(s: State<T>) {
    PayloadKnown(s.payload, s.vals)
    && (s.draft.None? ==> s.sel.None? && !s.saveAsked)
    && (s.draft.Some? ==> DraftSound(s))
  }

  ghost predicate OneTime<T>(s: State<T>, r: T) {
    r in s.vals && s.vals[r].WellTimed() && r in s.units && s.units[r] == s.vals[r].FileUnit()
  }

  /** At least one step, and for each one positive time in the unit remembered for it. */
  ghost predicate Timed<T>(s: State<T>) {
    PayloadTimed(s.payload, s.vals)
    && (s.draft.Some? ==> s.Steps() != [])
    && forall r :: r in s.Steps() ==> OneTime(s, r)
  }

  ghost predicate Inv<T>(s: State<T>) { Sound(s) && Timed(s) }

  // From a sound state to a sound one, well timed if it was.
  ghost predicate Keeps<T>(s: State<T>, t: State<T>) { Sound(t) && (Timed(s) ==> Timed(t)) }

  // What was there before new steps are adopted stays as it was.
  lemma {:induction false} AdoptKeeps<T>(s: State<T>, made: seq<T>, vs: seq<StepVal>, r: T)
    requires |made| == |vs| && r !in made
    ensures var t := Adopt(s, made, vs);
      && (r in t.vals <==> r in s.vals) && (r in t.units <==> r in s.units)
      && (r in s.vals ==> t.vals[r] == s.vals[r]) && (r in s.units ==> t.units[r] == s.units[r])
  {
    if made != [] {
      var n := |made| - 1;
      assert made == made[..n] + [made[n]];
      AdoptKeeps(s, made[..n], vs[..n], r);
    }
  }

  // Each new step has its value, and the unit the value is spelled in.
  lemma {:induction false} AdoptGives<T>(s: State<T>, made: seq<T>, vs: seq<StepVal>, i: int)
    requires |made| == |vs| && Distinct(made) && 0 <= i < |made|
    ensures var t := Adopt(s, made, vs);
      && made[i] in t.vals && t.vals[made[i]] == vs[i]
      && made[i] in t.units && t.units[made[i]] == vs[i].FileUnit()
  {
    var n := |made| - 1;
    if i < n { AdoptGives(s, made[..n], vs[..n], i); }
  }

  // ----- kinds of edit

  // One step of the draft is written; what else changes is not a step.
  ghost predicate Writes<T>(s: State<T>, t: State<T>, r: T, v: StepVal, unit: StepUnit) {
    r in s.Steps() && t.payload == s.payload && t.draft == s.draft
    && t.vals == s.vals[r := v] && t.units == s.units[r := unit]
    && (t.sel.Some? ==> 0 <= t.sel.value < |s.Steps()|)
    && (t.saveAsked ==> AnyShort(t, t.Steps()))
  }

  lemma WritesSound<T>(s: State<T>, t: State<T>, r: T, v: StepVal, unit: StepUnit)
    requires Sound(s) && Writes(s, t, r, v, unit)
    ensures Sound(t)
  {
    forall q | q in t.Steps() ensures Own(t, q) { assert Own(s, q); }
  }

  lemma WritesTimed<T>(s: State<T>, t: State<T>, r: T, v: StepVal, unit: StepUnit)
    requires Inv(s) && Writes(s, t, r, v, unit) && v.WellTimed() && unit == v.FileUnit()
    ensures Inv(t)
  {
    WritesSound(s, t, r, v, unit);
    assert Own(s, r);
    forall q | q in t.Steps() ensures OneTime(t, q) { assert OneTime(s, q); }
  }

  // Steps are dropped, reordered or added, the added ones new.
  ghost predicate Rearranges<T>(s: State<T>, t: State<T>, made: seq<T>, vs: seq<StepVal>) {
    s.draft.Some? && t.draft.Some? && t.payload == s.payload && !t.saveAsked
    && |made| == |vs| && Distinct(made) && (forall r :: r in made ==> r !in s.vals)
    && t.vals == Adopt(s, made, vs).vals && t.units == Adopt(s, made, vs).units
    && Distinct(t.Steps()) && (forall r :: r in t.Steps() ==> r in s.Steps() || r in made)
    && (t.sel.Some? ==> 0 <= t.sel.value < |t.Steps()|)
  }

  lemma MadeIsOwn<T>(s: State<T>, t: State<T>, made: seq<T>, vs: seq<StepVal>, r: T)
    requires PayloadKnown(s.payload, s.vals) && t.payload == s.payload
    requires |made| == |vs| && Distinct(made) && (forall q :: q in made ==> q !in s.vals)
    requires t.vals == Adopt(s, made, vs).vals && t.units == Adopt(s, made, vs).units && r in made
    ensures Own(t, r) && t.vals[r] in vs && t.units[r] == t.vals[r].FileUnit()
  {
    var i :| 0 <= i < |made| && made[i] == r;
    AdoptGives(s, made, vs, i);
  }

  lemma OldIsOwn<T>(s: State<T>, t: State<T>, made: seq<T>, vs: seq<StepVal>, r: T)
    requires Own(s, r) && t.payload == s.payload && |made| == |vs| && (forall q :: q in made ==> q !in s.vals)
    requires t.vals == Adopt(s, made, vs).vals && t.units == Adopt(s, made, vs).units
    ensures Own(t, r) && t.vals[r] == s.vals[r] && t.units[r] == s.units[r]
  {
    AdoptKeeps(s, made, vs, r);
  }

  lemma PayloadStaysKnown<T>(s: State<T>, made: seq<T>, vs: seq<StepVal>)
    requires |made| == |vs| && PayloadKnown(s.payload, s.vals) && (forall q :: q in made ==> q !in s.vals)
    ensures PayloadKnown(s.payload, Adopt(s, made, vs).vals)
    ensures PayloadTimed(s.payload, s.vals) ==> PayloadTimed(s.payload, Adopt(s, made, vs).vals)
  {
    forall r | r in s.vals ensures r in Adopt(s, made, vs).vals && Adopt(s, made, vs).vals[r] == s.vals[r] {
      AdoptKeeps(s, made, vs, r);
    }
  }

  lemma RearrangesSound<T>(s: State<T>, t: State<T>, made: seq<T>, vs: seq<StepVal>)
    requires Sound(s) && Rearranges(s, t, made, vs)
    ensures Sound(t)
  {
    PayloadStaysKnown(s, made, vs);
    forall r | r in t.Steps() ensures Own(t, r) {
      if r in made { MadeIsOwn(s, t, made, vs, r); } else { OldIsOwn(s, t, made, vs, r); }
    }
  }

  lemma RearrangesTimed<T>(s: State<T>, t: State<T>, made: seq<T>, vs: seq<StepVal>)
    requires Inv(s) && Rearranges(s, t, made, vs) && t.Steps() != [] && forall v :: v in vs ==> v.WellTimed()
    ensures Timed(t)
  {
    PayloadStaysKnown(s, made, vs);
    forall r | r in t.Steps() ensures OneTime(t, r) {
      if r in made { MadeIsOwn(s, t, made, vs, r); }
      else {
        assert OneTime(s, r);
        OldIsOwn(s, t, made, vs, r);
      }
    }
  }

  // No step object and no value of one changes.
  ghost predicate KeepsSteps<T>(s: State<T>, t: State<T>) {
    t.payload == s.payload && t.vals == s.vals && t.units == s.units
    && t.Steps() == s.Steps() && (t.draft.Some? <==> s.draft.Some?)
    && (t.sel.Some? ==> 0 <= t.sel.value < |t.Steps()|)
    && (t.saveAsked ==> t.draft.Some? && AnyShort(t, t.Steps()))
  }

  lemma KeepsStepsSound<T>(s: State<T>, t: State<T>)
    requires Sound(s) && KeepsSteps(s, t)
    ensures Keeps(s, t)
  {
    forall r | r in t.Steps() ensures Own(t, r) && (OneTime(s, r) ==> OneTime(t, r)) { assert Own(s, r); }
  }

  // Being short is a matter of the steps' values only.
  lemma SameValuesShort<T>(s: State<T>, t: State<T>)
    requires t.Steps() == s.Steps() && forall r :: r in s.Steps() ==> t.Val(r) == s.Val(r)
    ensures AnyShort(t, t.Steps()) == AnyShort(s, s.Steps())
  {
    forall i | 0 <= i < |s.Steps()| ensures t.Val(t.Steps()[i]) == s.Val(s.Steps()[i]) {
      assert s.Steps()[i] in s.Steps();
    }
  }

  // ----- each operation

  lemma ClickKeeps<T>(s: State<T>, i: int, token: string)
    requires Sound(s)
    ensures Keeps(s, Clicked(s, i, token))
  {
    if s.Has(i) {
      assert Own(s, s.At(i));
      HoldWritten(s, Clicked(s, i, token), s.At(i), Lens.Click(s.Val(s.At(i)).hold, token));
    }
  }

  lemma UndoKeeps<T>(s: State<T>, r: T, hold: seq<string>)
    requires Sound(s)
    ensures Keeps(s, Restored(s, r, hold))
  {
    if r in s.Steps() {
      assert Own(s, r);
      HoldWritten(s, Restored(s, r, hold), r, hold);
    }
  }

  // Writing a hold changes no time and no unit.
  lemma HoldWritten<T>(s: State<T>, t: State<T>, r: T, hold: seq<string>)
    requires Sound(s) && r in s.Steps() && r in s.vals && t.payload == s.payload && t.draft == s.draft && !t.saveAsked
    requires t.vals == s.vals[r := s.vals[r].(hold := hold)] && t.units == s.units
    requires t.sel.Some? ==> 0 <= t.sel.value < |s.Steps()|
    ensures Keeps(s, t)
  {
    var v := s.vals[r].(hold := hold);
    assert Own(s, r);
    assert s.units[r := s.units[r]] == s.units;
    WritesSound(s, t, r, v, s.units[r]);
    if Timed(s) {
      assert OneTime(s, r);
      WritesTimed(s, t, r, v, s.units[r]);
    }
  }

  // Converting a well-timed step keeps it well timed, in the unit asked for; in its own unit it is untouched.
  lemma ConvertedOk(v: StepVal, want: StepUnit)
    requires v.WellTimed()
    ensures v.Converted(want).WellTimed() && v.Converted(want).FileUnit() == want
    ensures v.FileUnit() == want ==> v.Converted(want) == v
  {
    FramesMsIsNearest(1, v.frames.GetOr(1));
  }

  lemma UnitSetWrites<T>(s: State<T>, i: int, want: StepUnit)
    requires Sound(s) && s.Has(i)
    ensures s.At(i) in s.vals
    ensures Writes(s, UnitSet(s, i, want), s.At(i), s.vals[s.At(i)].Converted(want), want)
  {
    assert Own(s, s.At(i));
  }

  lemma UnitSetKeeps<T>(s: State<T>, i: int, want: StepUnit)
    requires Sound(s)
    ensures Keeps(s, UnitSet(s, i, want))
  {
    var t := UnitSet(s, i, want);
    if s.Has(i) {
      UnitSetWrites(s, i, want);
      var r := s.At(i);
      WritesSound(s, t, r, s.vals[r].Converted(want), want);
      if Timed(s) {
        assert OneTime(s, r);
        ConvertedOk(s.vals[r], want);
        WritesTimed(s, t, r, s.vals[r].Converted(want), want);
      }
    } else {
      KeepsStepsSound(s, t);
    }
  }

  lemma DurationSetSound<T>(s: State<T>, i: int, value: real)
    requires Sound(s)
    ensures Sound(DurationSet(s, i, value))
  {
    if s.Has(i) && value > 0.0 {
      var r, t := s.At(i), DurationSet(s, i, value);
      assert Own(s, r);
      WritesSound(s, t, r, t.vals[r], s.Unit(r));
    }
  }

  /** Which typed durations keep one positive time in every row. */
  lemma DurationSetKeepsIff<T>(s: State<T>, i: int, value: real)
    requires Inv(s)
    ensures Inv(DurationSet(s, i, value)) <==> !(s.Has(i) && 0.0 < value < 0.5)
  {
    if s.Has(i) && value > 0.0 {
      var r, t := s.At(i), DurationSet(s, i, value);
      assert OneTime(s, r);
      if value < 0.5 {
        assert RoundHalfUp(value) == 0;
        assert r in t.Steps() && !OneTime(t, r);
      } else {
        assert RoundHalfUp(value) >= 1;
        WritesTimed(s, t, r, t.vals[r], s.Unit(r));
      }
    }
  }

  /** It happens: a quarter of a millisecond, or of a frame, passes the guard and is stored as nothing. */
  lemma QuarterIsStoredAsZero<T>(s: State<T>, i: int)
    requires Inv(s) && s.Has(i)
    ensures var v := DurationSet(s, i, 0.25).Val(s.At(i)); v.ms == Some(0) || v.frames == Some(0)
    ensures !Inv(DurationSet(s, i, 0.25))
  {
    DurationSetKeepsIff(s, i, 0.25);
  }

  lemma AllowShortKeeps<T>(s: State<T>, on: bool)
    requires Sound(s)
    ensures Keeps(s, AllowShortSet(s, on))
  {
    if s.sel.Some? && s.Has(s.sel.value) {
      var r, t := s.At(s.sel.value), AllowShortSet(s, on);
      assert Own(s, r);
      var v := s.vals[r].(allowShort := on);
      assert s.units[r := s.units[r]] == s.units;
      WritesSound(s, t, r, v, s.units[r]);
      if Timed(s) {
        assert OneTime(s, r);
        WritesTimed(s, t, r, v, s.units[r]);
      }
    }
  }

  lemma DistinctInsert<T>(steps: seq<T>, k: int, r: T)
    requires Distinct(steps) && 0 <= k <= |steps| && r !in steps
    ensures Distinct(steps[..k] + [r] + steps[k..])
  {
    assert forall j :: 0 <= j < |steps| ==> steps[j] in steps;
  }

  lemma InsertedKeeps<T>(s: State<T>, k: int, made: seq<T>)
    requires Sound(s) && s.draft.Some? && 0 <= k <= |s.Steps()|
    requires forall r :: r in made ==> r !in s.vals
    ensures Keeps(s, Inserted(s, k, made))
  {
    if |made| == 1 {
      var t, steps := Inserted(s, k, made), s.Steps();
      assert made == [made[0]];
      assert forall r :: r in steps ==> Own(s, r);
      DistinctInsert(steps, k, made[0]);
      RearrangesSound(s, t, made, [FRESH_STEP]);
      if Timed(s) { RearrangesTimed(s, t, made, [FRESH_STEP]); }
    }
  }

  lemma DistinctWithout<T>(steps: seq<T>, i: int)
    requires Distinct(steps) && 0 <= i < |steps|
    ensures var rest := steps[..i] + steps[i+1..];
      Distinct(rest) && (forall r :: r in rest ==> r in steps) && steps[i] !in rest
  {
    var rest := steps[..i] + steps[i+1..];
    assert forall j :: 0 <= j < |rest| ==> rest[j] == steps[if j < i then j else j + 1];
  }

  lemma ReinsertedFrom<T>(steps: seq<T>, i: int, k: int, r: T)
    requires 0 <= i < |steps| && 0 <= k < |steps| && r in Reinserted(steps, i, k)
    ensures r in steps
  {
    var rest := steps[..i] + steps[i+1..];
    assert r in rest[..k] || r == steps[i] || r in rest[k..];
    assert r in rest || r == steps[i];
  }

  lemma DistinctReinserted<T>(steps: seq<T>, i: int, k: int)
    requires Distinct(steps) && 0 <= i < |steps| && 0 <= k < |steps|
    ensures Distinct(Reinserted(steps, i, k))
    ensures forall r :: r in Reinserted(steps, i, k) ==> r in steps
  {
    DistinctWithout(steps, i);
    DistinctInsert(steps[..i] + steps[i+1..], k, steps[i]);
    forall r | r in Reinserted(steps, i, k) ensures r in steps { ReinsertedFrom(steps, i, k, r); }
  }

  lemma MovedKeeps<T>(s: State<T>, i: int, k: int)
    requires Sound(s) && s.Has(i) && s.Has(k)
    ensures Keeps(s, Moved(s, i, k))
  {
    var t := Moved(s, i, k);
    DistinctReinserted(s.Steps(), i, k);
    RearrangesSound(s, t, [], []);
    if Timed(s) { RearrangesTimed(s, t, [], []); }
  }

  lemma DeletedKeeps<T>(s: State<T>, i: int)
    requires Sound(s) && s.Has(i)
    ensures Keeps(s, Deleted(s, i))
  {
    var t, steps := Deleted(s, i), s.Steps();
    if |steps| == 1 {
      assert Own(s, s.At(0));
      HoldWritten(s, t, s.At(0), []);
    } else {
      DistinctWithout(steps, i);
      RearrangesSound(s, t, [], []);
      if Timed(s) { RearrangesTimed(s, t, [], []); }
    }
  }

  lemma SelectedKeeps<T>(s: State<T>, i: int)
    requires Sound(s)
    ensures Keeps(s, Selected(s, i))
  {
    if s.Has(i) { KeepsStepsSound(s, Selected(s, i)); }
  }

  lemma ToggledKeeps<T>(s: State<T>, i: int)
    requires Sound(s) && s.Has(i)
    ensures Keeps(s, Rowed(s, ToggleUnit, i))
  {
    var t := s.(sel := Some(i));
    SameValuesShort(s, t);
    KeepsStepsSound(s, t);
    UnitSetKeeps(t, i, if s.Unit(s.At(i)) == InFrames then InMs else InFrames);
  }

  lemma RowedKeeps<T>(s: State<T>, verb: Verb, i: int)
    requires Sound(s) && s.Has(i)
    ensures Keeps(s, Rowed(s, verb, i))
  {
    match verb
    case DeleteStep => DeletedKeeps(s, i);
    case ToggleUnit => ToggledKeeps(s, i);
    case MoveUp => if i > 0 { MovedKeeps(s, i, i - 1); }
    case MoveDown => if i < |s.Steps()| - 1 { MovedKeeps(s, i, i + 1); }
    case SelectStep => SelectedKeeps(s, i);
    case _ =>
  }

  lemma VerbKeeps<T>(s: State<T>, verb: Verb, i: int, made: seq<T>)
    requires Sound(s) && forall r :: r in made ==> r !in s.vals
    ensures Keeps(s, Verbed(s, verb, i, made))
  {
    if s.draft.Some? {
      match InsertionPoint(verb, i, |s.Steps()|)
      case Some(k) => InsertedKeeps(s, k, made);
      case None => if s.Has(i) { RowedKeeps(s, verb, i); }
    }
  }

  lemma DistinctJoin<T>(a: seq<T>, b: seq<T>)
    requires Distinct(a) && Distinct(b) && forall r :: r in a ==> r !in b
    ensures Distinct(a + b)
  {
    forall i, j | 0 <= i < |a| && 0 <= j < |b| ensures a[i] != b[j] { assert a[i] in a && b[j] in b; }
  }

  lemma MotionKeeps<T>(s: State<T>, m: Mechanism, motion: seq<seq<Dir>>, made: seq<T>)
    requires Sound(s) && Distinct(made) && forall r :: r in made ==> r !in s.vals
    ensures var t := MotionInserted(s, MotionSteps(m, motion), made);
      Keeps(s, t)
  {
    var steps, t := MotionSteps(m, motion), MotionInserted(s, MotionSteps(m, motion), made);
    if s.draft.Some? && steps != [] && |made| == |steps| {
      assert forall r :: r in s.Steps() ==> Own(s, r);
      DistinctJoin(s.Steps(), made);
      RearrangesSound(s, t, made, steps);
      if Timed(s) { RearrangesTimed(s, t, made, steps); }
    }
  }

  lemma PolicyKeeps<T>(s: State<T>, p: Option<Policy>)
    requires Sound(s)
    ensures Keeps(s, PolicySet(s, p))
  {
    if s.draft.Some? && p.Some? { KeepsStepsSound(s, PolicySet(s, p)); }
  }

  // A seed either closes the editor or opens clones of one macro's steps.
  ghost predicate Opens<T>(s: State<T>, t: State<T>, made: seq<T>, steps: seq<T>) {
    t.draft.Some? && t.Steps() == made && |made| == |steps| && t.payload == s.payload && !t.saveAsked
    && t.vals == Adopt(s, made, Vals(s, steps)).vals && t.units == Adopt(s, made, Vals(s, steps)).units
    && (t.sel.Some? ==> 0 <= t.sel.value < |made|)
  }

  lemma OpensSound<T>(s: State<T>, t: State<T>, made: seq<T>, steps: seq<T>)
    requires Sound(s) && Opens(s, t, made, steps) && Distinct(made) && forall r :: r in made ==> r !in s.vals
    ensures Sound(t)
  {
    PayloadStaysKnown(s, made, Vals(s, steps));
    forall r | r in made ensures Own(t, r) { MadeIsOwn(s, t, made, Vals(s, steps), r); }
  }

  lemma OpensTimed<T>(s: State<T>, t: State<T>, made: seq<T>, steps: seq<T>)
    requires Inv(s) && Opens(s, t, made, steps) && Distinct(made) && forall r :: r in made ==> r !in s.vals
    requires steps != [] && forall r :: r in steps ==> s.Val(r).WellTimed()
    ensures Timed(t)
  {
    var vs := Vals(s, steps);
    PayloadStaysKnown(s, made, vs);
    forall v | v in vs ensures v.WellTimed() {
      var i :| 0 <= i < |vs| && vs[i] == v;
      assert steps[i] in steps;
    }
    forall r | r in made ensures OneTime(t, r) { MadeIsOwn(s, t, made, vs, r); }
  }

  lemma SeededOpens<T>(s: State<T>, name: Option<string>, made: seq<T>)
    requires Sound(s) && Found(s, name) < |s.Macros()| && |made| == |s.Macros()[Found(s, name)].steps|
    ensures Opens(s, Seeded(s, name, made), made, s.Macros()[Found(s, name)].steps)
  {}

  lemma SeededSound<T>(s: State<T>, name: Option<string>, made: seq<T>)
    requires Sound(s) && Distinct(made) && forall r :: r in made ==> r !in s.vals
    ensures Sound(Seeded(s, name, made))
  {
    var k := Found(s, name);
    if k < |s.Macros()| && |made| == |s.Macros()[k].steps| {
      SeededOpens(s, name, made);
      OpensSound(s, Seeded(s, name, made), made, s.Macros()[k].steps);
    }
  }

  lemma SeededTimed<T>(s: State<T>, name: Option<string>, made: seq<T>)
    requires Inv(s) && Distinct(made) && forall r :: r in made ==> r !in s.vals
    ensures Timed(Seeded(s, name, made))
  {
    var k := Found(s, name);
    if k < |s.Macros()| && |made| == |s.Macros()[k].steps| {
      SeededOpens(s, name, made);
      assert s.payload.Some? && s.Macros() == s.payload.value.macros;
      OpensTimed(s, Seeded(s, name, made), made, s.Macros()[k].steps);
    }
  }

  // Only the draft's triggers are replaced, and the question asked again.
  lemma RepaintedKeepsSteps<T>(s: State<T>, u: State<T>)
    requires Sound(s) && s.draft.Some? && u.draft.Some? && u == s.(draft := u.draft) && u.Steps() == s.Steps()
    ensures KeepsSteps(s, Refreshed(u))
  {
    SameValuesShort(u, Refreshed(u));
  }

  // With a hand on the draft, a payload is stored and the draft repainted.
  lemma BusyKeepsSteps<T>(s: State<T>, made: seq<T>)
    requires Sound(s) && !Seeds(s)
    ensures KeepsSteps(s, Shown(s, made))
  {
    var k := FindMacro(s.Macros(), Lower(s.draft.value.name));
    if k == |s.Macros()| { RepaintedKeepsSteps(s, s); }
    else { RepaintedKeepsSteps(s, s.(draft := Some(s.draft.value.(triggers := s.Macros()[k].triggers)))); }
  }

  lemma ShownSound<T>(s: State<T>, made: seq<T>)
    requires Sound(s) && Distinct(made) && forall r :: r in made ==> r !in s.vals
    ensures Sound(Shown(s, made))
  {
    if Seeds(s) {
      SeededSound(s, None, made);
    } else {
      BusyKeepsSteps(s, made);
      KeepsStepsSound(s, Shown(s, made));
    }
  }

  lemma ShownTimed<T>(s: State<T>, made: seq<T>)
    requires Inv(s) && Distinct(made) && forall r :: r in made ==> r !in s.vals
    ensures Timed(Shown(s, made))
  {
    if Seeds(s) {
      SeededTimed(s, None, made);
    } else {
      BusyKeepsSteps(s, made);
      KeepsStepsSound(s, Shown(s, made));
    }
  }

  // New payload objects do not disturb the draft.
  lemma ArrivalSound<T>(s: State<T>, p: Payload<T>, incoming: map<T, StepVal>)
    requires Sound(s) && PayloadKnown(Some(p), incoming)
    requires forall r :: r in incoming ==> r !in s.vals
    ensures Sound(Arrived(s, p, incoming))
    ensures forall r :: r in s.Steps() ==> Arrived(s, p, incoming).Val(r) == s.Val(r)
  {
    var t := Arrived(s, p, incoming);
    forall r | r in t.Steps() ensures Own(t, r) && t.Val(r) == s.Val(r) { assert Own(s, r); }
    SameValuesShort(s, t);
  }

  lemma ArrivalTimed<T>(s: State<T>, p: Payload<T>, incoming: map<T, StepVal>)
    requires Inv(s) && PayloadTimed(Some(p), incoming)
    requires forall r :: r in incoming ==> r !in s.vals
    ensures Timed(Arrived(s, p, incoming))
  {
    var t := Arrived(s, p, incoming);
    forall r | r in t.Steps() ensures OneTime(t, r) { assert OneTime(s, r); }
  }

  // Showing a payload changes neither it nor the values it has.
  lemma ShownPayload<T>(s: State<T>, made: seq<T>, r: T)
    requires r !in made && r in s.vals
    ensures var t := Shown(s, made); t.payload == s.payload && r in t.vals && t.vals[r] == s.vals[r]
  {
    if Seeds(s) { SeededPayload(s, None, made, r); }
  }

  lemma SeededPayload<T>(s: State<T>, name: Option<string>, made: seq<T>, r: T)
    requires r !in made && r in s.vals
    ensures var t := Seeded(s, name, made); t.payload == s.payload && r in t.vals && t.vals[r] == s.vals[r]
  {
    var k := Found(s, name);
    if k < |s.Macros()| && |made| == |s.Macros()[k].steps| { AdoptKeeps(s, made, Vals(s, s.Macros()[k].steps), r); }
  }

  lemma ShownKeepsPayload<T>(s: State<T>, made: seq<T>)
    ensures Shown(s, made).payload == s.payload
  {}

  // A poll stores an ill-timed payload as it is.
  lemma IllTimedStays<T>(s: State<T>, p: Payload<T>, incoming: map<T, StepVal>, made: seq<T>)
    requires forall r :: r in made ==> r !in incoming
    requires PayloadKnown(Some(p), incoming) && PayloadTimed(Some(p), Polled(s, p, incoming, made).vals)
    ensures PayloadTimed(Some(p), incoming)
  {
    var a := Arrived(s, p, incoming);
    forall r | r in incoming ensures r in Shown(a, made).vals && Shown(a, made).vals[r] == incoming[r] {
      ShownPayload(a, made, r);
    }
  }

  lemma PollKeepsIff<T>(s: State<T>, p: Payload<T>, incoming: map<T, StepVal>, made: seq<T>)
    requires Inv(s) && Enabled(s, Poll(p, incoming, made))
    ensures Inv(Polled(s, p, incoming, made)) <==> PayloadTimed(Some(p), incoming)
  {
    var a, t := Arrived(s, p, incoming), Polled(s, p, incoming, made);
    ArrivalSound(s, p, incoming);
    ShownSound(a, made);
    if PayloadTimed(Some(p), incoming) {
      ArrivalTimed(s, p, incoming);
      ShownTimed(a, made);
    } else if Inv(t) {
      ShownKeepsPayload(a, made);
      IllTimedStays(s, p, incoming, made);
    }
  }

  // ----- one event, and whole runs

  lemma EditKeeps<T>(s: State<T>, e: Event<T>)
    requires Sound(s) && Enabled(s, e)
    requires e.Click? || e.Undo? || e.StepVerb? || e.SetUnit? || e.SetAllowShort? || e.InsertMotion?
    ensures Keeps(s, Apply(s, e))
  {
    match e
    case Click(i, token) => ClickKeeps(s, i, token);
    case Undo(r, hold) => UndoKeeps(s, r, hold);
    case StepVerb(verb, i, made) => VerbKeeps(s, verb, i, made);
    case SetUnit(i, unit) => UnitSetKeeps(s, i, unit);
    case SetAllowShort(on) => AllowShortKeeps(s, on);
    case InsertMotion(motion, m, made) => MotionKeeps(s, m, MotionOf(motion), made);
  }

  lemma FlagKeeps<T>(s: State<T>, e: Event<T>)
    requires Sound(s) && (e.Focus? || e.AskShort? || e.ClearQuestion? || e.MarkSaved?)
    ensures Keeps(s, Apply(s, e))
  {
    var t := Apply(s, e);
    assert t.vals == s.vals && t.Steps() == s.Steps();
    SameValuesShort(s, t);
    KeepsStepsSound(s, t);
  }

  lemma WordsKeep<T>(s: State<T>, e: Event<T>)
    requires Sound(s) && (e.ChangePolicy? || e.ChangeRate?)
    ensures Keeps(s, Apply(s, e))
  {
    match e
    case ChangePolicy(field, word) =>
      PolicyKeeps(s, if s.draft.Some? then SetPolicy(s.draft.value.policy, field, word) else None);
    case ChangeRate(rate, asGap) =>
      PolicyKeeps(s, if s.draft.Some? then SetRate(s.draft.value.policy, rate, asGap) else None);
  }

  lemma ResetSound<T>(s: State<T>)
    requires Sound(s)
    ensures Keeps(s, Reset(s))
  {}

  /** Every event keeps the step objects apart from each other and from the payload, whatever the file says. */
  lemma EventSound<T>(s: State<T>, e: Event<T>)
    requires Sound(s) && Enabled(s, e)
    ensures Sound(Apply(s, e))
  {
    match e
    case SetDuration(i, value) => DurationSetSound(s, i, value);
    case Seed(name, made) => SeededSound(s, name, made);
    case Poll(p, incoming, made) =>
      ArrivalSound(s, p, incoming);
      ShownSound(Arrived(s, p, incoming), made);
    case SelectSlot(made) =>
      ResetSound(s);
      ShownSound(Reset(s), made);
    case Focus(_) | AskShort | ClearQuestion | MarkSaved(_) => FlagKeeps(s, e);
    case ChangePolicy(_, _) | ChangeRate(_, _) => WordsKeep(s, e);
    case _ => EditKeeps(s, e);
  }

  /** Over every run, with any payloads: distinct step objects, none of them a payload's, and the selection in
      range. */
  lemma {:induction false} RunSound<T>(s: State<T>, es: seq<Event<T>>)
    requires Sound(s) && RunEnabled(s, es)
    ensures Sound(Run(s, es))
  {
    if es != [] {
      RunSound(s, es[..|es|-1]);
      EventSound(Run(s, es[..|es|-1]), es[|es|-1]);
    }
  }

  // What can leave a step without one positive time: a positive duration that rounds to nothing, or a file that
  // says so.
  ghost predicate Breaks<T>(s: State<T>, e: Event<T>) {
    (e.SetDuration? && s.Has(e.index) && 0.0 < e.value < 0.5)
    || (e.Poll? && !PayloadTimed(Some(e.payload), e.incoming))
  }

  /** An event keeps the editor invariant exactly when it is neither a duration strictly between 0 and one half
      typed into a row that is there, nor a poll whose payload is itself ill-timed. */
  lemma EventKeepsIff<T>(s: State<T>, e: Event<T>)
    requires Inv(s) && Enabled(s, e)
    ensures Inv(Apply(s, e)) <==> !Breaks(s, e)
  {
    match e
    case SetDuration(i, value) => DurationSetKeepsIff(s, i, value);
    case Poll(p, incoming, made) => PollKeepsIff(s, p, incoming, made);
    case Seed(name, made) =>
      SeededSound(s, name, made);
      SeededTimed(s, name, made);
    case SelectSlot(made) =>
      ResetSound(s);
      ShownSound(Reset(s), made);
      ShownTimed(Reset(s), made);
    case Focus(_) | AskShort | ClearQuestion | MarkSaved(_) => FlagKeeps(s, e);
    case ChangePolicy(_, _) | ChangeRate(_, _) => WordsKeep(s, e);
    case _ => EditKeeps(s, e);
  }

  // No event of the run breaks it where it happens.
  ghost predicate NothingBreaks<T>(s: State<T>, es: seq<Event<T>>) {
    es == [] || (NothingBreaks(s, es[..|es|-1]) && !Breaks(Run(s, es[..|es|-1]), es[|es|-1]))
  }

  /** The editor invariant holds after every run of edits, polls, seeds, slot switches, saves and undos from a
      good state in which no duration rounds away and no payload is ill-timed. */
  lemma {:induction false} RunKeeps<T>(s: State<T>, es: seq<Event<T>>)
    requires Inv(s) && RunEnabled(s, es) && NothingBreaks(s, es)
    ensures Inv(Run(s, es))
  {
    if es != [] {
      RunKeeps(s, es[..|es|-1]);
      EventKeepsIff(Run(s, es[..|es|-1]), es[|es|-1]);
    }
  }
}
