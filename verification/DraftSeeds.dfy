/** Which macro a seed opens, and what is in the editor when it has. */
module DraftSeeds {
  import opened Common
  import opened Names
  import opened Timing
  import opened Macros
  import opened Draft
  import opened DraftInvariant

  /** The first macro of that name, case aside. */
  ghost predicate FirstCalled<T>(list: seq<Table<T>>, name: string, k: int) {
    0 <= k < |list| && SameName(list[k].name, name) && forall j :: 0 <= j < k ==> !SameName(list[j].name, name)
  }

  ghost predicate NoneCalled<T>(list: seq<Table<T>>, name: string) {
    forall j :: 0 <= j < |list| ==> !SameName(list[j].name, name)
  }

  // New steps that read as these ones do, each in the unit the file spells it in.
  ghost predicate StepsCopied<T>(s: State<T>, t: State<T>, steps: seq<T>, made: seq<T>) {
    |made| == |steps|
    && forall i :: 0 <= i < |made| ==>
      made[i] !in s.vals && t.Val(made[i]) == s.Val(steps[i]) && made[i] in t.units
      && t.units[made[i]] == if s.Val(steps[i]).frames.Some? && s.Val(steps[i]).ms.None? then InFrames else InMs
  }

  /** The editor holds a clean copy of that macro, and the selection if it is the macro that was open and has that
      row. */
  ghost predicate CopyOf<T>(s: State<T>, t: State<T>, found: Table<T>, made: seq<T>) {
    StepsCopied(s, t, found.steps, made)
    && t.draft == Some(Table(found.name, made, found.policy, found.triggers))
    && t.chosen == Some(found.name) && t.seedName == Some(found.name) && t.fromDisk && !t.dirty && !t.saveAsked
    && t.sel == (if s.chosen.Some? && SameName(found.name, s.chosen.value) && s.sel.Some? && s.sel.value < |found.steps|
                 then s.sel else None)
    && t.payload == s.payload && t.focused == s.focused && t.lastUnit == s.lastUnit
    && forall q :: q in s.vals ==> q in t.vals && t.vals[q] == s.vals[q]
  }

  /** No macro is open. */
  ghost predicate Emptied<T>(s: State<T>, t: State<T>) {
    t == s.(draft := None, fromDisk := false, seedName := None, chosen := None, dirty := false, saveAsked := false,
            sel := None)
  }

  lemma {:induction false} FindIs<T>(list: seq<Table<T>>, name: string, k: int)
    ensures FirstCalled(list, name, k) ==> FindMacro(list, Lower(name)) == k
    ensures NoneCalled(list, name) ==> FindMacro(list, Lower(name)) == |list|
  {
    var found := FindMacro(list, Lower(name));
    assert found < |list| ==> SameName(list[found].name, name);
    assert forall j :: 0 <= j < found ==> !SameName(list[j].name, name);
  }

  // t has the values and units of s and those adopted.
  ghost predicate Adopted<T>(s: State<T>, t: State<T>, steps: seq<T>, made: seq<T>)
    requires |made| == |steps|
  {
    t.vals == Adopt(s, made, Vals(s, steps)).vals && t.units == Adopt(s, made, Vals(s, steps)).units
  }

  lemma StepsAreCopied<T>(s: State<T>, t: State<T>, steps: seq<T>, made: seq<T>)
    requires |made| == |steps| && Distinct(made) && Adopted(s, t, steps, made)
    requires forall r :: r in made ==> r !in s.vals
    ensures StepsCopied(s, t, steps, made)
    ensures forall q :: q in s.vals ==> q in t.vals && t.vals[q] == s.vals[q]
  {
    forall i | 0 <= i < |made|
      ensures made[i] !in s.vals && t.Val(made[i]) == s.Val(steps[i])
      ensures made[i] in t.units && t.units[made[i]] == s.Val(steps[i]).FileUnit()
    {
      AdoptGives(s, made, Vals(s, steps), i);
    }
    forall q | q in s.vals ensures q in t.vals && t.vals[q] == s.vals[q] {
      AdoptKeeps(s, made, Vals(s, steps), q);
    }
  }

  lemma SeedAdopts<T>(s: State<T>, name: Option<string>, made: seq<T>)
    requires Found(s, name) < |s.Macros()| && |made| == SeedNeeds(s, name)
    ensures Adopted(s, Seeded(s, name, made), s.Macros()[Found(s, name)].steps, made)
  {}

  lemma SeedCopies<T>(s: State<T>, name: Option<string>, made: seq<T>)
    requires Sound(s) && Enabled(s, Seed(name, made)) && Found(s, name) < |s.Macros()|
    ensures CopyOf(s, Apply(s, Seed(name, made)), s.Macros()[Found(s, name)], made)
  {
    SeedAdopts(s, name, made);
    StepsAreCopied(s, Seeded(s, name, made), s.Macros()[Found(s, name)].steps, made);
  }

  /** A seed by name opens the first macro of that name, whatever was open before, or none if there is none. */
  lemma SeedByName<T>(s: State<T>, name: string, made: seq<T>, k: int)
    requires Sound(s) && Enabled(s, Seed(Some(name), made))
    ensures var t := Apply(s, Seed(Some(name), made));
      && (FirstCalled(s.Macros(), name, k) ==> CopyOf(s, t, s.Macros()[k], made))
      && (NoneCalled(s.Macros(), name) ==> Emptied(s, t))
  {
    FindIs(s.Macros(), name, k);
    if FirstCalled(s.Macros(), name, k) { SeedCopies(s, Some(name), made); }
  }

  // The macro a seed without a name asks for: the one chosen, or else the payload's.
  function Asks(chosen: Option<string>, selected: Option<string>): string {
    if chosen.Some? then chosen.value else if selected.Some? then selected.value else ""
  }

  /** A seed without a name opens the macro that was chosen, or else the one the payload selects; if there is none
      of that name, the first there is; and none only if there are none. */
  lemma SeedByDefault<T>(s: State<T>, made: seq<T>, k: int)
    requires Sound(s) && Enabled(s, Seed(None, made))
    ensures var t, list := Apply(s, Seed(None, made)), s.Macros();
      var asked := Asks(s.chosen, if s.payload.Some? then s.payload.value.selected else None);
      && (FirstCalled(list, asked, k) ==> CopyOf(s, t, list[k], made))
      && (NoneCalled(list, asked) && list != [] ==> CopyOf(s, t, list[0], made))
      && (list == [] ==> Emptied(s, t))
  {
    var asked := Asks(s.chosen, if s.payload.Some? then s.payload.value.selected else None);
    FindIs(s.Macros(), asked, k);
    if s.Macros() != [] { SeedCopies(s, None, made); }
  }

  /** A poll stores its payload, and seeds without a name exactly when no draft is open or nobody's hands are on it. */
  lemma PollSeeds<T>(s: State<T>, p: Payload<T>, incoming: map<T, StepVal>, made: seq<T>)
    requires s.draft.None? || (!s.dirty && !s.focused)
    ensures Apply(s, Poll(p, incoming, made))
         == Apply(s.(payload := Some(p), vals := s.vals + incoming), Seed(None, made))
  {}

  /** Picking a slot drops the draft, the choice and the unit, and then seeds from the last payload, if there is one. */
  lemma SlotSeeds<T>(s: State<T>, made: seq<T>)
    ensures var dropped := s.(draft := None, fromDisk := false, seedName := None, chosen := None, dirty := false,
                              sel := None, lastUnit := InMs, saveAsked := false);
      Apply(s, SelectSlot(made)) == if s.payload.Some? then Apply(dropped, Seed(None, made)) else dropped
  {}
}
