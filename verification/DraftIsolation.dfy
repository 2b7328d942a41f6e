/** What an event may touch: a draft never reaches the payload it was cloned from, and an undo finds its own step
    object or nothing. */
module DraftIsolation {
  import opened Common
  import opened Names
  import opened Macros
  import opened Draft
  import opened DraftInvariant
  import Lens

  // ----- what an event may touch

  // From s to t only the draft's own steps were written, and what joined the draft is in made.
  ghost predicate Touches<T>(s: State<T>, t: State<T>, made: seq<T>) {
    (forall r :: r in s.vals ==> r in t.vals)
    && (forall r :: r in s.vals && r !in s.Steps() ==> t.vals[r] == s.vals[r])
    && (forall r :: r in t.Steps() ==> r in s.Steps() || r in made)
  }

  lemma WriteTouches<T>(s: State<T>, t: State<T>, i: int)
    requires s.Has(i) && t.draft == s.draft
    requires s.At(i) in t.vals && t.vals == s.vals[s.At(i) := t.vals[s.At(i)]]
    ensures Touches(s, t, [])
  {
    assert s.At(i) in s.Steps();
  }

  lemma AdoptTouches<T>(s: State<T>, t: State<T>, made: seq<T>, vs: seq<StepVal>)
    requires Distinct(made) && |made| == |vs| && forall r :: r in made ==> r !in s.vals
    requires t.vals == Adopt(s, made, vs).vals
    requires forall r :: r in t.Steps() ==> r in s.Steps() || r in made
    ensures Touches(s, t, made)
  {
    forall r | r in s.vals ensures r in t.vals && t.vals[r] == s.vals[r] { AdoptKeeps(s, made, vs, r); }
  }

  lemma InsertedTouches<T>(s: State<T>, k: int, made: seq<T>)
    requires s.draft.Some? && 0 <= k <= |s.Steps()| && forall r :: r in made ==> r !in s.vals
    ensures Touches(s, Inserted(s, k, made), made)
  {
    if |made| == 1 { AdoptTouches(s, Inserted(s, k, made), made, [FRESH_STEP]); }
  }

  lemma MovedTouches<T>(s: State<T>, i: int, k: int)
    requires s.Has(i) && s.Has(k)
    ensures Touches(s, Moved(s, i, k), [])
  {
    var t := Moved(s, i, k);
    forall r | r in t.Steps() ensures r in s.Steps() { ReinsertedFrom(s.Steps(), i, k, r); }
  }

  lemma DeletedTouches<T>(s: State<T>, i: int)
    requires s.Has(i)
    ensures Touches(s, Deleted(s, i), [])
  {
    if |s.Steps()| == 1 { WriteTouches(s, Deleted(s, i), 0); }
  }

  lemma UnitTouches<T>(s: State<T>, i: int, want: StepUnit)
    ensures Touches(s, UnitSet(s, i, want), [])
  {
    if s.Has(i) { WriteTouches(s, UnitSet(s, i, want), i); }
  }

  lemma ToggleTouches<T>(s: State<T>, i: int)
    requires s.Has(i)
    ensures Touches(s, Rowed(s, ToggleUnit, i), [])
  {
    UnitTouches(s.(sel := Some(i)), i, if s.Unit(s.At(i)) == InFrames then InMs else InFrames);
  }

  lemma RowedTouches<T>(s: State<T>, verb: Verb, i: int)
    requires s.Has(i)
    ensures Touches(s, Rowed(s, verb, i), [])
  {
    match verb
    case DeleteStep => DeletedTouches(s, i);
    case ToggleUnit => ToggleTouches(s, i);
    case MoveUp => if i > 0 { MovedTouches(s, i, i - 1); }
    case MoveDown => if i < |s.Steps()| - 1 { MovedTouches(s, i, i + 1); }
    case _ =>
  }

  lemma VerbTouches<T>(s: State<T>, verb: Verb, i: int, made: seq<T>)
    requires forall r :: r in made ==> r !in s.vals
    ensures Touches(s, Verbed(s, verb, i, made), made)
  {
    if s.draft.Some? {
      match InsertionPoint(verb, i, |s.Steps()|)
      case Some(k) => InsertedTouches(s, k, made);
      case None => if s.Has(i) { RowedTouches(s, verb, i); }
    }
  }

  lemma SeedTouches<T>(s: State<T>, name: Option<string>, made: seq<T>)
    requires Distinct(made) && forall r :: r in made ==> r !in s.vals
    ensures Touches(s, Seeded(s, name, made), made)
  {
    var k := Found(s, name);
    if k < |s.Macros()| && |made| == |s.Macros()[k].steps| {
      AdoptTouches(s, Seeded(s, name, made), made, Vals(s, s.Macros()[k].steps));
    }
  }

  // With a hand on the draft a payload's arrival writes no step.
  lemma BusyTouches<T>(s: State<T>, made: seq<T>)
    requires !Seeds(s)
    ensures Touches(s, Shown(s, made), made)
  {
    assert Shown(s, made).vals == s.vals && Shown(s, made).Steps() == s.Steps();
  }

  lemma ShownTouches<T>(s: State<T>, made: seq<T>)
    requires Distinct(made) && forall r :: r in made ==> r !in s.vals
    ensures Touches(s, Shown(s, made), made)
  {
    if Seeds(s) { SeedTouches(s, None, made); } else { BusyTouches(s, made); }
  }

  lemma MotionTouches<T>(s: State<T>, steps: seq<StepVal>, made: seq<T>)
    requires Distinct(made) && forall r :: r in made ==> r !in s.vals
    ensures Touches(s, MotionInserted(s, steps, made), made)
  {
    if s.draft.Some? && steps != [] && |made| == |steps| {
      AdoptTouches(s, MotionInserted(s, steps, made), made, steps);
    }
  }

  lemma ClickTouches<T>(s: State<T>, i: int, token: string)
    ensures Touches(s, Clicked(s, i, token), [])
  {
    if s.Has(i) { WriteTouches(s, Clicked(s, i, token), i); }
  }

  lemma UndoTouches<T>(s: State<T>, r: T, hold: seq<string>)
    ensures Touches(s, Restored(s, r, hold), [])
  {
    if r in s.Steps() { WriteTouches(s, Restored(s, r, hold), IndexIn(s.Steps(), r)); }
  }

  lemma DurationTouches<T>(s: State<T>, i: int, value: real)
    ensures Touches(s, DurationSet(s, i, value), [])
  {
    if s.Has(i) && value > 0.0 { WriteTouches(s, DurationSet(s, i, value), i); }
  }

  lemma AllowShortTouches<T>(s: State<T>, on: bool)
    ensures Touches(s, AllowShortSet(s, on), [])
  {
    if s.sel.Some? && s.Has(s.sel.value) { WriteTouches(s, AllowShortSet(s, on), s.sel.value); }
  }

  lemma PollTouches<T>(s: State<T>, p: Payload<T>, incoming: map<T, StepVal>, made: seq<T>)
    requires Enabled(s, Poll(p, incoming, made))
    ensures Touches(s, Polled(s, p, incoming, made), made)
  {
    ShownTouches(Arrived(s, p, incoming), made);
  }

  lemma SlotTouches<T>(s: State<T>, made: seq<T>)
    requires Distinct(made) && forall r :: r in made ==> r !in s.vals
    ensures Touches(s, SlotSelected(s, made), made)
  {
    ShownTouches(Reset(s), made);
  }

  lemma FlagTouches<T>(s: State<T>, e: Event<T>)
    requires e.ChangePolicy? || e.ChangeRate? || e.Focus? || e.AskShort? || e.ClearQuestion? || e.MarkSaved?
    ensures Touches(s, Apply(s, e), [])
  {
    assert Apply(s, e).vals == s.vals && Apply(s, e).Steps() == s.Steps();
  }

  lemma EditTouches<T>(s: State<T>, e: Event<T>)
    requires Enabled(s, e)
    requires e.Click? || e.Undo? || e.SetDuration? || e.SetUnit? || e.SetAllowShort? || e.StepVerb? || e.InsertMotion?
    ensures Touches(s, Apply(s, e), Made(e))
  {
    match e
    case Click(i, token) => ClickTouches(s, i, token);
    case Undo(r, hold) => UndoTouches(s, r, hold);
    case SetDuration(i, value) => DurationTouches(s, i, value);
    case SetUnit(i, want) => UnitTouches(s, i, want);
    case SetAllowShort(on) => AllowShortTouches(s, on);
    case StepVerb(verb, i, made) => VerbTouches(s, verb, i, made);
    case InsertMotion(motion, m, made) => MotionTouches(s, MotionSteps(m, MotionOf(motion)), made);
  }

  /** An event writes only steps of the draft it was made on, and every step it brings into the draft is
      a new object. Nothing outside the draft, the payload's steps above all, changes value. */
  lemma EventTouchesDraftOnly<T>(s: State<T>, e: Event<T>)
    requires Enabled(s, e)
    ensures Touches(s, Apply(s, e), Made(e))
  {
    match e
    case Seed(name, made) => SeedTouches(s, name, made);
    case Poll(p, incoming, made) => PollTouches(s, p, incoming, made);
    case SelectSlot(made) => SlotTouches(s, made);
    case ChangePolicy(_, _) | ChangeRate(_, _) | Focus(_) | AskShort | ClearQuestion | MarkSaved(_) =>
      FlagTouches(s, e);
    case _ => EditTouches(s, e);
  }

  /** DRAFT ISOLATION over whole runs: a step outside the draft, a payload step above all, keeps its value
      and stays outside, whatever is done in whatever order. */
  lemma {:induction false} OutsideStepsKeepTheirValue<T>(s: State<T>, es: seq<Event<T>>, r: T)
    requires RunEnabled(s, es) && r in s.vals && r !in s.Steps()
    ensures r in Run(s, es).vals && r !in Run(s, es).Steps()
    ensures Run(s, es).vals[r] == s.vals[r]
  {
    if es != [] {
      var front, e := es[..|es|-1], es[|es|-1];
      OutsideStepsKeepTheirValue(s, front, r);
      EventTouchesDraftOnly(Run(s, front), e);
    }
  }

  // ----- undo by identity

  // The events after which every step of the draft is a fresh clone, or there is no draft.
  ghost predicate Reseeds<T>(s: State<T>, e: Event<T>) {
    e.Seed? || e.SelectSlot? || (e.Poll? && Seeds(s))
  }

  lemma SeededIsFresh<T>(s: State<T>, name: Option<string>, made: seq<T>, r: T)
    requires Distinct(made) && |made| == SeedNeeds(s, name) && r !in made
    ensures r !in Seeded(s, name, made).Steps()
  {}

  lemma ReseedClears<T>(s: State<T>, e: Event<T>, r: T)
    requires Enabled(s, e) && Reseeds(s, e) && r in s.vals
    ensures r !in Apply(s, e).Steps() && r in Apply(s, e).vals
  {
    EventTouchesDraftOnly(s, e);
    match e
    case Seed(name, made) => SeededIsFresh(s, name, made, r);
    case SelectSlot(made) => if s.payload.Some? { SeededIsFresh(Reset(s), None, made, r); }
    case Poll(p, incoming, made) => SeededIsFresh(Arrived(s, p, incoming), None, made, r);
    case _ =>
  }

  lemma {:induction false} KnownStays<T>(s: State<T>, es: seq<Event<T>>, r: T)
    requires RunEnabled(s, es) && r in s.vals
    ensures r in Run(s, es).vals
  {
    if es != [] {
      KnownStays(s, es[..|es|-1], r);
      EventTouchesDraftOnly(Run(s, es[..|es|-1]), es[|es|-1]);
    }
  }

  // Some event of the run re-seeded the draft.
  ghost predicate Reseeded<T>(s: State<T>, es: seq<Event<T>>) {
    es != [] && (Reseeded(s, es[..|es|-1]) || Reseeds(Run(s, es[..|es|-1]), es[|es|-1]))
  }

  lemma {:induction false} GoneAfterReseed<T>(s: State<T>, es: seq<Event<T>>, r: T)
    requires RunEnabled(s, es) && r in s.vals && Reseeded(s, es)
    ensures r !in Run(s, es).Steps()
  {
    var front, e := es[..|es|-1], es[|es|-1];
    KnownStays(s, front, r);
    if Reseeds(Run(s, front), e) {
      ReseedClears(Run(s, front), e, r);
    } else {
      GoneAfterReseed(s, front, r);
      EventTouchesDraftOnly(Run(s, front), e);
    }
  }

  // The undo put r's hold back and touched nothing else.
  ghost predicate PutBack<T>(t: State<T>, u: State<T>, r: T, hold: seq<string>)
    requires r in t.vals
  {
    && u == t.(vals := t.vals[r := t.vals[r].(hold := hold)], sel := u.sel, dirty := true, saveAsked := false)
    && u.sel.Some? && u.Has(u.sel.value) && u.At(u.sel.value) == r
  }

  lemma RestoredWhere<T>(t: State<T>, r: T, hold: seq<string>)
    requires r in t.vals
    ensures if r in t.Steps() then PutBack(t, Restored(t, r, hold), r, hold) else Restored(t, r, hold) == t
  {}

  /** UNDO BY IDENTITY. A cell of row i is clicked; any run of events follows; then its undo is pressed.
      If that step object is no longer in the draft the undo is refused and changes nothing, and that is
      so after every re-seed in between. Otherwise it puts back that step's hold as it was before the
      click and selects its row, wherever the row is now; no other step, duration or order changes. */
  lemma UndoAfterAnyRun<T>(s: State<T>, i: int, token: string, es: seq<Event<T>>)
    requires s.Has(i) && s.At(i) in s.vals
    requires RunEnabled(Clicked(s, i, token), es)
    ensures s.At(i) in Run(Clicked(s, i, token), es).vals
    ensures Reseeded(Clicked(s, i, token), es) ==> s.At(i) !in Run(Clicked(s, i, token), es).Steps()
    ensures var t, hold := Run(Clicked(s, i, token), es), s.vals[s.At(i)].hold;
      if s.At(i) in t.Steps() then PutBack(t, Restored(t, s.At(i), hold), s.At(i), hold)
      else Restored(t, s.At(i), hold) == t
  {
    var c, r := Clicked(s, i, token), s.At(i);
    assert r in c.vals;
    KnownStays(c, es, r);
    RestoredWhere(Run(c, es), r, s.vals[r].hold);
    if Reseeded(c, es) { GoneAfterReseed(c, es, r); }
  }
}
