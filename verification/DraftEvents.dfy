/** What each event of the editor does, row by row. */
module DraftEvents {
  import opened Common
  import opened Names
  import opened Timing
  import opened Macros
  import opened Draft
  import opened DraftInvariant
  import Lens

  // Every step object but r reads as before.
  ghost predicate OthersRead<T>(s: State<T>, t: State<T>, r: T) {
    forall q :: q in s.vals && q != r ==> q in t.vals && t.vals[q] == s.vals[q]
  }

  // An edit of what one row says: the rows themselves, and every other one, are as they were.
  ghost predicate RowEdited<T>(s: State<T>, t: State<T>, i: int, v: StepVal) {
    s.Has(i) && t.draft == s.draft && t.dirty && !t.saveAsked && t.Val(s.At(i)) == v && OthersRead(s, t, s.At(i))
  }

  // Name, policies and triggers; everything of the draft but its rows.
  ghost predicate SameFrame<T>(s: State<T>, t: State<T>) {
    s.draft.Some? && t.draft.Some? && t.draft.value == s.draft.value.(steps := t.Steps())
  }

  // ----- clicks and their undo

  // What a pick leaves: nothing on its mechanism if the diagonal was lit, else its canonical pair; the rest, in order.
  ghost predicate Picked(before: seq<string>, after: seq<string>, m: Mechanism, d: Diag) {
    Lens.Mine(after, m) == (if Lens.DiagLit(before, m, d) then [] else Pair(m, d))
    && Lens.Others(after, m) == Lens.Others(before, m)
  }

  // What a click on a named column leaves: the first match gone, or the name at the end.
  ghost predicate NamePressed(before: seq<string>, after: seq<string>, fn: string) {
    if exists f :: f in before && Lens.Matches(f, fn) then
      exists k :: 0 <= k < |before| && Lens.Matches(before[k], fn)
        && (forall j :: 0 <= j < k ==> !Lens.Matches(before[j], fn)) && after == before[..k] + before[k+1..]
    else after == before + [fn]
  }

  /** A click on a row writes that row's hold and nothing else of any step, keeps every duration and unit, and selects
      the row. What it writes is what the cell promises. */
  lemma ClickWrites<T>(s: State<T>, i: int, token: string)
    requires s.Has(i)
    ensures var t, v := Apply(s, Click(i, token)), s.Val(s.At(i));
      var after := t.Val(s.At(i)).hold;
      && RowEdited(s, t, i, v.(hold := after)) && t.units == s.units && t.sel == Some(i)
      && match ParseDiagToken(token)
         case Some(Pick(m, d)) => Picked(v.hold, after, m, d)
         case None => NamePressed(v.hold, after, token)
  {
    ClickedHold(s.Val(s.At(i)).hold, token);
  }

  lemma ClickedHold(before: seq<string>, token: string)
    ensures match ParseDiagToken(token)
      case Some(Pick(m, d)) => Picked(before, Lens.Click(before, token), m, d)
      case None => NamePressed(before, Lens.Click(before, token), token)
  {
    match ParseDiagToken(token)
    case Some(Pick(m, d)) => Lens.PaintEqualsClick(before, m, d);
    case None => Lens.NameClickExactly(before, token);
  }

  /** A click outside the rows does nothing. */
  lemma ClickOutside<T>(s: State<T>, i: int, token: string)
    requires !s.Has(i)
    ensures Apply(s, Click(i, token)) == s
  {}

  /** An undo writes the hold it is given into its own step, wherever that now is, and selects it; for a step that
      is not in the draft it does nothing. */
  lemma UndoWrites<T>(s: State<T>, r: T, hold: seq<string>)
    ensures var t := Apply(s, Undo(r, hold));
      if r !in s.Steps() then t == s
      else
        exists i :: s.Has(i) && s.At(i) == r && (forall j :: 0 <= j < i ==> s.At(j) != r)
          && RowEdited(s, t, i, s.Val(r).(hold := hold)) && t.units == s.units && t.sel == Some(i)
  {
    if r in s.Steps() {
      FirstIndex(s.Steps(), r);
      var i := IndexIn(s.Steps(), r);
      assert s.Has(i) && s.At(i) == r;
    }
  }

  lemma {:induction false} FirstIndex<T>(steps: seq<T>, r: T)
    ensures forall j :: 0 <= j < IndexIn(steps, r) ==> steps[j] != r
  {
    if steps != [] && steps[0] != r { FirstIndex(steps[1..], r); }
  }

  // ----- rows

  // A new row at k, 50 ms long and holding nothing.
  ghost predicate NewRow<T>(s: State<T>, t: State<T>, k: int, r: T) {
    0 <= k <= |s.Steps()| && SameFrame(s, t) && t.Steps() == s.Steps()[..k] + [r] + s.Steps()[k..]
    && t.sel == Some(k) && t.dirty && !t.saveAsked
    && t.Val(r) == StepVal([], Some(50), None, false) && r in t.units && t.units[r] == InMs
    && OthersRead(s, t, r) && forall q :: q in s.units && q != r ==> q in t.units && t.units[q] == s.units[q]
  }

  /** A new row stands at the end, above or below, as the verb says; a row that is not there has no row above or below
      it, except that one may be put above the end. */
  lemma InsertPlaces<T>(s: State<T>, i: int, r: T)
    requires s.draft.Some? && r !in s.vals
    ensures NewRow(s, Apply(s, StepVerb(AddStep, i, [r])), |s.Steps()|, r)
    ensures if 0 <= i <= |s.Steps()| then NewRow(s, Apply(s, StepVerb(InsertAbove, i, [r])), i, r)
            else Apply(s, StepVerb(InsertAbove, i, [])) == s
    ensures if s.Has(i) then NewRow(s, Apply(s, StepVerb(InsertBelow, i, [r])), i + 1, r)
            else Apply(s, StepVerb(InsertBelow, i, [])) == s
  {
    InsertedIsNew(s, |s.Steps()|, r);
    if 0 <= i <= |s.Steps()| { InsertedIsNew(s, i, r); }
    if s.Has(i) { InsertedIsNew(s, i + 1, r); }
  }

  lemma InsertedIsNew<T>(s: State<T>, k: int, r: T)
    requires s.draft.Some? && r !in s.vals && 0 <= k <= |s.Steps()|
    ensures NewRow(s, Inserted(s, k, [r]), k, r)
  {
    AdoptGives(s, [r], [FRESH_STEP], 0);
    var t := Inserted(s, k, [r]);
    forall q | q in s.vals && q != r ensures q in t.vals && t.vals[q] == s.vals[q] {
      AdoptKeeps(s, [r], [FRESH_STEP], q);
    }
    forall q | q in s.units && q != r ensures q in t.units && t.units[q] == s.units[q] {
      AdoptKeeps(s, [r], [FRESH_STEP], q);
    }
  }

  /** A delete takes its row out and selects the one that moves up, or the last; the only row is emptied of what it
      holds and keeps its time. */
  lemma DeleteTakes<T>(s: State<T>, i: int)
    requires s.Has(i)
    ensures var t, n := Apply(s, StepVerb(DeleteStep, i, [])), |s.Steps()|;
      if n == 1 then RowEdited(s, t, i, s.Val(s.At(i)).(hold := [])) && t.sel == Some(0) && t.units == s.units
      else
        && SameFrame(s, t) && t.Steps() == s.Steps()[..i] + s.Steps()[i+1..] && t.vals == s.vals && t.units == s.units
        && t.sel == Some(if i < n - 1 then i else n - 2) && t.dirty && !t.saveAsked
  {}

  /** The first row does not move up, nor the last down; and no verb on a row that is not there does anything. */
  lemma VerbsStop<T>(s: State<T>, verb: Verb, i: int)
    requires verb.DeleteStep? || verb.ToggleUnit? || verb.MoveUp? || verb.MoveDown? || verb.SelectStep?
    ensures !s.Has(i) ==> Apply(s, StepVerb(verb, i, [])) == s
    ensures s.Has(i) && i == 0 ==> Apply(s, StepVerb(MoveUp, i, [])) == s
    ensures s.Has(i) && i == |s.Steps()| - 1 ==> Apply(s, StepVerb(MoveDown, i, [])) == s
  {}

  /** Selecting a row changes nothing else, and a question stays up. */
  lemma SelectOnlySelects<T>(s: State<T>, i: int)
    requires Sound(s) && s.Has(i)
    ensures Apply(s, StepVerb(SelectStep, i, [])) == s.(sel := Some(i))
  {
    SameValuesShort(s, s.(sel := Some(i)));
  }

  /** A motion's steps join at the end, in order, with the values they are made with; the first of them is selected. */
  lemma MotionAppends<T>(s: State<T>, motion: string, m: Mechanism, made: seq<T>)
    requires s.draft.Some? && Enabled(s, InsertMotion(motion, m, made)) && MotionOf(motion) != []
    ensures var t, dirs := Apply(s, InsertMotion(motion, m, made)), MotionOf(motion);
      && SameFrame(s, t) && t.Steps() == s.Steps() + made && |made| == |dirs|
      && t.sel == Some(|s.Steps()|) && t.dirty && !t.saveAsked
      && (forall i :: 0 <= i < |made| ==>
        t.Val(made[i]) == StepVal(DirNames(m, dirs[i]), Some(50), None, false)
        && made[i] in t.units && t.units[made[i]] == InMs)
      && forall q :: q in s.vals ==> q in t.vals && t.vals[q] == s.vals[q]
  {
    var vs := MotionSteps(m, MotionOf(motion));
    forall i | 0 <= i < |made|
      ensures Adopt(s, made, vs).Val(made[i]) == vs[i]
        && made[i] in Adopt(s, made, vs).units && Adopt(s, made, vs).units[made[i]] == InMs
    {
      AdoptGives(s, made, vs, i);
    }
    forall q | q in s.vals ensures q in Adopt(s, made, vs).vals && Adopt(s, made, vs).vals[q] == s.vals[q] {
      AdoptKeeps(s, made, vs, q);
    }
  }

  // ----- durations

  // The whole number nearest to a typed one, halves up.
  ghost predicate Nearest(n: int, value: real) { n as real - 0.5 <= value < n as real + 0.5 }

  // v with this time and no other.
  ghost predicate Lasts(v: StepVal, w: StepVal, unit: StepUnit, n: int) {
    w.hold == v.hold && w.allowShort == v.allowShort
    && if unit == InMs then w.ms == Some(n) && w.frames == None else w.frames == Some(n) && w.ms == None
  }

  /** A typed duration is rounded and stored in the unit its row shows, which is remembered, as is the row. */
  lemma DurationStores<T>(s: State<T>, i: int, value: real)
    requires s.Has(i) && value > 0.0
    ensures var t, r := Apply(s, SetDuration(i, value)), s.At(i);
      && RowEdited(s, t, i, t.Val(r)) && t.sel == Some(i)
      && t.units == s.units[r := s.Unit(r)] && t.lastUnit == s.Unit(r)
      && Nearest(RoundHalfUp(value), value) && Lasts(s.Val(r), t.Val(r), s.Unit(r), RoundHalfUp(value))
  {}

  lemma NothingTyped<T>(s: State<T>, i: int, value: real)
    requires !s.Has(i) || value <= 0.0
    ensures Apply(s, SetDuration(i, value)) == s
  {}

  /** Frames as milliseconds, to the nearest, halves up. */
  ghost predicate FramesAsMs(frames: int, ms: int) { -30 < 60 * ms - 1000 * frames <= 30 }

  /** Milliseconds as frames, to the nearest, halves up, and at least one. */
  ghost predicate MsAsFrames(ms: int, frames: int) {
    frames >= 1 && 1000 * frames - 60 * ms > -500 && (frames == 1 || 1000 * frames - 60 * ms <= 500)
  }

  // The row as it reads in the unit asked for: as it was if it had a time in it, else converted.
  ghost predicate Reads(v: StepVal, w: StepVal, want: StepUnit) {
    if want == InMs then
      if v.ms.Some? then w == v
      else exists n :: Lasts(v, w, InMs, n) && FramesAsMs(v.frames.GetOr(1), n)
    else
      if v.frames.Some? then w == v
      else exists n :: Lasts(v, w, InFrames, n) && MsAsFrames(v.ms.GetOr(50), n)
  }

  lemma ConvertedReads(v: StepVal, want: StepUnit)
    ensures Reads(v, v.Converted(want), want)
  {
    if want == InMs && v.ms.None? {
      assert Lasts(v, v.Converted(want), InMs, FramesMs(v.frames.GetOr(1)));
      assert FramesAsMs(v.frames.GetOr(1), FramesMs(v.frames.GetOr(1)));
    } else if want == InFrames && v.frames.None? {
      assert Lasts(v, v.Converted(want), InFrames, MsFrames(v.ms.GetOr(50)));
      assert MsAsFrames(v.ms.GetOr(50), MsFrames(v.ms.GetOr(50)));
    }
  }

  // Row i reads in that unit, which is remembered for it; no other row changed.
  ghost predicate UnitChosen<T>(s: State<T>, t: State<T>, i: int, want: StepUnit) {
    s.Has(i) && t.draft == s.draft && OthersRead(s, t, s.At(i)) && Reads(s.Val(s.At(i)), t.Val(s.At(i)), want)
    && t.units == s.units[s.At(i) := want] && t.lastUnit == want
  }

  /** Choosing a unit converts the row to it and remembers it, and touches nothing else. */
  lemma UnitConverts<T>(s: State<T>, i: int, want: StepUnit)
    requires s.Has(i)
    ensures UnitChosen(s, Apply(s, SetUnit(i, want)), i, want) && Apply(s, SetUnit(i, want)).sel == s.sel
  {
    ConvertedReads(s.Val(s.At(i)), want);
    UnitValue(s, i, want);
  }

  lemma UnitValue<T>(s: State<T>, i: int, want: StepUnit)
    requires s.Has(i)
    ensures var t := UnitSet(s, i, want);
      && t.Val(s.At(i)) == s.Val(s.At(i)).Converted(want) && t.draft == s.draft && OthersRead(s, t, s.At(i))
      && t.units == s.units[s.At(i) := want] && t.lastUnit == want && t.sel == s.sel
  {}

  /** A row's own toggle chooses the unit it does not show, and selects the row. */
  lemma ToggleConverts<T>(s: State<T>, i: int)
    requires s.Has(i)
    ensures var t := Apply(s, StepVerb(ToggleUnit, i, []));
      UnitChosen(s, t, i, if s.Unit(s.At(i)) == InMs then InFrames else InMs) && t.sel == Some(i)
  {
    ConvertedReads(s.Val(s.At(i)), if s.Unit(s.At(i)) == InMs then InFrames else InMs);
    UnitValue(s.(sel := Some(i)), i, if s.Unit(s.At(i)) == InMs then InFrames else InMs);
  }

  /** Allow-short goes to the selected row. */
  lemma AllowShortStores<T>(s: State<T>, on: bool)
    ensures var t := Apply(s, SetAllowShort(on));
      if s.sel.Some? && s.Has(s.sel.value) then
        RowEdited(s, t, s.sel.value, s.Val(s.At(s.sel.value)).(allowShort := on))
        && t.units == s.units && t.sel == s.sel
      else t == s
  {}

  // ----- policies

  datatype Field = Release | Retrigger | Interrupt | Again

  // What the page calls it, and the words it takes.
  function FieldName(f: Field): string {
    match f
    case Release => "on_release"
    case Retrigger => "retrigger"
    case Interrupt => "interrupt"
    case Again => "repeat"
  }

  function Words(f: Field): seq<string> {
    match f
    case Release => ["finish", "abort"]
    case Retrigger => ["ignore", "restart"]
    case Interrupt => ["none", "any-input", "opposing"]
    case Again => ["once", "while-held", "turbo"]
  }

  function Word(p: Policy, f: Field): string {
    match f
    case Release => p.onRelease
    case Retrigger => p.retrigger
    case Interrupt => p.interrupt
    case Again => p.again
  }

  // One field has a new word; the rate changes only in that a turbo without one gets ten presses a second.
  ghost predicate Reworded(p: Policy, q: Policy, f: Field, word: string) {
    Word(q, f) == word && (forall g: Field :: g != f ==> Word(q, g) == Word(p, g))
    && q.gapMs == p.gapMs && q.disabled == p.disabled
    && q.turboHz == if f == Again && word == "turbo" && p.turboHz == None && p.gapMs == None then Some(10)
                    else p.turboHz
  }

  lemma FieldTakesItsWords(p: Policy, f: Field, word: string)
    ensures var q := SetPolicy(p, FieldName(f), word);
      if word in Words(f) then q.Some? && Reworded(p, q.value, f, word) else q == None
  {
    match f
    case Release => assert word in Words(f) <==> word == "finish" || word == "abort";
    case Retrigger => assert word in Words(f) <==> word == "ignore" || word == "restart";
    case Interrupt => assert word in Words(f) <==> word == "none" || word == "any-input" || word == "opposing";
    case Again => assert word in Words(f) <==> word == "once" || word == "while-held" || word == "turbo";
  }

  // The draft's policies changed, and nothing else of the draft.
  ghost predicate PolicyEdited<T>(s: State<T>, t: State<T>, q: Policy) {
    s.draft.Some? && t == s.(draft := Some(s.draft.value.(policy := q)), dirty := true, saveAsked := false)
  }

  /** A policy field takes the words it knows and no other, and no other field changes. */
  lemma PolicyStores<T>(s: State<T>, f: Field, word: string)
    requires s.draft.Some?
    ensures var t := Apply(s, ChangePolicy(FieldName(f), word));
      if word in Words(f) then
        exists q :: PolicyEdited(s, t, q) && Reworded(s.draft.value.policy, q, f, word)
      else t == s
  {
    var p := s.draft.value.policy;
    FieldTakesItsWords(p, f, word);
    if word in Words(f) {
      var q := SetPolicy(p, FieldName(f), word).value;
      assert PolicyEdited(s, Apply(s, ChangePolicy(FieldName(f), word)), q);
    }
  }

  /** There is no other field. */
  lemma UnknownField<T>(s: State<T>, field: string, word: string)
    requires forall f: Field :: field != FieldName(f)
    ensures Apply(s, ChangePolicy(field, word)) == s
  {
    assert field != FieldName(Release) && field != FieldName(Retrigger);
    assert field != FieldName(Interrupt) && field != FieldName(Again);
  }

  /** A rate is rounded and replaces whatever rate there was, in its own spelling; an empty box clears it, a negative
      number changes nothing. */
  lemma RateStores<T>(s: State<T>, rate: Option<real>, asGap: bool)
    requires s.draft.Some?
    ensures var t := Apply(s, ChangeRate(rate, asGap));
      if rate.Some? && rate.value < 0.0 then t == s
      else
        && t == s.(draft := t.draft, dirty := true, saveAsked := false) && t.draft.Some?
        && var p, q := s.draft.value.policy, t.draft.value.policy;
        && t.draft.value == s.draft.value.(policy := q) && q == p.(turboHz := q.turboHz, gapMs := q.gapMs)
        && (rate.None? || asGap ==> q.turboHz == None) && (rate.None? || !asGap ==> q.gapMs == None)
        && (rate.Some? && asGap ==> q.gapMs.Some? && Nearest(q.gapMs.value, rate.value))
        && (rate.Some? && !asGap ==> q.turboHz.Some? && Nearest(q.turboHz.value, rate.value))
  {}

  // ----- the question, saving, and what does not edit

  // Below what a 60 Hz sampler can be sure to see: less than 33 ms, or a single frame.
  ghost predicate Unsure(v: StepVal) {
    (v.ms.Some? && v.frames.None? && v.ms.value < 33) || (v.ms.None? && v.frames.Some? && v.frames.value < 2)
  }

  /** Asking puts the question up exactly when some row is short, and changes nothing else. */
  lemma AskingAsks<T>(s: State<T>)
    requires Sound(s)
    ensures var t := Apply(s, AskShort);
      t == s.(saveAsked := t.saveAsked)
      && (t.saveAsked <==> exists i :: s.Has(i) && Unsure(s.Val(s.At(i))))
  {
    forall i | s.Has(i) ensures Unsure(s.Val(s.At(i))) <==> s.Val(s.Steps()[i]).Length().IsShort() {}
  }

  /** What a save that landed leaves: the draft under its new name, now the file's. */
  lemma SavedIsClean<T>(s: State<T>, name: string)
    requires s.draft.Some?
    ensures Apply(s, MarkSaved(name)) == s.(
      draft := Some(s.draft.value.(name := name)), fromDisk := true, seedName := Some(name), chosen := Some(name),
      dirty := false, saveAsked := false)
  {}

  /** Without a draft there is nothing to edit; choosing a unit is remembered all the same. */
  lemma NothingToEdit<T>(s: State<T>, e: Event<T>)
    requires Sound(s) && s.draft.None?
    requires e.Click? || e.Undo? || e.StepVerb? || e.SetDuration? || e.SetUnit? || e.SetAllowShort? || e.ChangePolicy?
      || e.ChangeRate? || e.InsertMotion?
    ensures Apply(s, e) == if e.SetUnit? then s.(lastUnit := e.unit) else s
  {}

  /** So it is for a row that is not there, and for a motion nobody knows. */
  lemma NoSuchRow<T>(s: State<T>, i: int, want: StepUnit, motion: string, m: Mechanism)
    requires Sound(s)
    ensures !s.Has(i) ==> Apply(s, SetUnit(i, want)) == s.(lastUnit := want)
    ensures MotionOf(motion) == [] ==> Apply(s, InsertMotion(motion, m, [])) == s
  {
    SameValuesShort(s, s.(lastUnit := want));
  }

  /** A row shows the unit remembered for it, and one never met the unit its file spells. */
  lemma UnitShown<T>(s: State<T>, r: T)
    ensures r in s.units ==> s.Unit(r) == s.units[r]
    ensures r !in s.units ==> (s.Unit(r) == InFrames <==> s.Val(r).frames.Some? && s.Val(r).ms.None?)
  {}

  lemma SmallEvents<T>(s: State<T>, on: bool)
    ensures Apply(s, Focus(on)) == s.(focused := on)
    ensures Apply(s, ClearQuestion) == s.(saveAsked := false)
  {}
}
