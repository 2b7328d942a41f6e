/** What a poll does to the editor, and what Save's question promises while it stands. */
module DraftPolls {
  import opened Common
  import opened Names
  import opened Timing
  import opened Macros
  import opened Draft
  import opened DraftInvariant

  // ----- one poll

  /** A poll while the draft is dirty or a control has the caret changes the stored payload and the
      draft's triggers and nothing else. */
  lemma BusyPollChangesTriggersOnly<T>(s: State<T>, p: Payload<T>, incoming: map<T, StepVal>, made: seq<T>)
    requires Sound(s) && Enabled(s, Poll(p, incoming, made)) && s.draft.Some? && s.Busy()
    ensures var t := Polled(s, p, incoming, made);
      var k := FindMacro(p.macros, Lower(s.draft.value.name));
      t == s.(payload := Some(p), vals := s.vals + incoming,
        draft := if k == |p.macros| then s.draft else Some(s.draft.value.(triggers := p.macros[k].triggers)))
  {
    ArrivalSound(s, p, incoming);
    var a := Arrived(s, p, incoming);
    SameValuesShort(s, a);
    var k := FindMacro(p.macros, Lower(s.draft.value.name));
    if k < |p.macros| { SameValuesShort(a, a.(draft := Some(a.draft.value.(triggers := p.macros[k].triggers)))); }
  }

  // A seed has opened `found` on the new steps, after the payload arrived in a.
  ghost predicate Opened<T>(a: State<T>, t: State<T>, found: Table<T>, made: seq<T>) {
    |made| == |found.steps|
    && t.draft == Some(found.(steps := made)) && t.payload == a.payload
    && t.chosen == Some(found.name) && t.seedName == Some(found.name) && t.fromDisk
    && !t.dirty && !t.saveAsked && t.focused == a.focused && t.lastUnit == a.lastUnit
    && t.sel == KeptSelection(a, found)
    && t.vals == Adopt(a, made, Vals(a, found.steps)).vals
    && t.units == Adopt(a, made, Vals(a, found.steps)).units
  }

  lemma SeedOpens<T>(a: State<T>, made: seq<T>)
    requires a.Macros() != [] && |made| == SeedNeeds(a, None)
    ensures Found(a, None) < |a.Macros()|
    ensures Opened(a, Seeded(a, None, made), a.Macros()[Found(a, None)], made)
  {}

  // What a seeding poll leaves.
  lemma PollOpens<T>(s: State<T>, p: Payload<T>, incoming: map<T, StepVal>, made: seq<T>)
    requires Enabled(s, Poll(p, incoming, made)) && Seeds(s) && p.macros != []
    ensures var a := Arrived(s, p, incoming);
      Found(a, None) < |p.macros| && Opened(a, Polled(s, p, incoming, made), p.macros[Found(a, None)], made)
  {
    SeedOpens(Arrived(s, p, incoming), made);
  }

  // The new steps carry the payload's values and are its objects no more.
  lemma ClonedValue<T>(s: State<T>, a: State<T>, t: State<T>, found: Table<T>, incoming: map<T, StepVal>, made: seq<T>,
                       i: int)
    requires Opened(a, t, found, made) && a.vals == s.vals + incoming && Distinct(made) && 0 <= i < |made|
    requires forall r :: r in found.steps ==> r in incoming
    requires forall r :: r in made ==> r !in s.vals && r !in incoming
    ensures made[i] !in s.vals && made[i] !in found.steps && found.steps[i] in incoming
    ensures made[i] in t.vals && t.vals[made[i]] == incoming[found.steps[i]]
    ensures made[i] in t.units && t.units[made[i]] == incoming[found.steps[i]].FileUnit()
  {
    assert made[i] in made && found.steps[i] in found.steps;
    AdoptGives(a, made, Vals(a, found.steps), i);
  }

  /** A poll with nobody's hands on the draft installs a copy of the chosen macro, if the payload still has
      it: new step objects with the payload's values, in order, and the selection kept while in range. */
  lemma IdlePollClones<T>(s: State<T>, p: Payload<T>, incoming: map<T, StepVal>, made: seq<T>, k: int)
    requires Enabled(s, Poll(p, incoming, made)) && Seeds(s) && s.chosen.Some?
    requires k == FindMacro(p.macros, Lower(s.chosen.value)) && k < |p.macros|
    ensures var t, found := Polled(s, p, incoming, made), p.macros[k];
      && t.draft == Some(found.(steps := made)) && t.chosen == Some(found.name) && |made| == |found.steps|
      && (forall i :: 0 <= i < |made| ==>
        made[i] !in s.vals && made[i] !in found.steps
        && found.steps[i] in incoming && made[i] in t.vals && t.vals[made[i]] == incoming[found.steps[i]])
      && !t.dirty && !t.saveAsked
      && t.sel == (if s.sel.Some? && s.sel.value < |made| then s.sel else None)
  {
    var a, t, found := Arrived(s, p, incoming), Polled(s, p, incoming, made), p.macros[k];
    PollOpens(s, p, incoming, made);
    forall i | 0 <= i < |made|
      ensures made[i] !in s.vals && made[i] !in found.steps
        && found.steps[i] in incoming && made[i] in t.vals && t.vals[made[i]] == incoming[found.steps[i]]
    {
      ClonedValue(s, a, t, found, incoming, made, i);
    }
  }

  // ----- two polls

  // What is on screen: everything but which objects hold it.
  datatype View = View(
    name: Option<string>, steps: seq<StepVal>, stepUnits: seq<StepUnit>, policy: Option<Policy>, triggers: seq<string>,
    chosen: Option<string>, seedName: Option<string>, fromDisk: bool, dirty: bool, sel: Option<int>,
    saveAsked: bool, focused: bool, lastUnit: StepUnit)

  ghost function Units<T>(s: State<T>, steps: seq<T>): (r: seq<StepUnit>)
    ensures |r| == |steps| && forall i :: 0 <= i < |steps| ==> r[i] == s.Unit(steps[i])
  {
    seq(|steps|, i requires 0 <= i < |steps| => s.Unit(steps[i]))
  }

  ghost function ViewOf<T>(s: State<T>): View {
    View(
      if s.draft.Some? then Some(s.draft.value.name) else None,
      Vals(s, s.Steps()), Units(s, s.Steps()),
      if s.draft.Some? then Some(s.draft.value.policy) else None,
      if s.draft.Some? then s.draft.value.triggers else [],
      s.chosen, s.seedName, s.fromDisk, s.dirty, s.sel, s.saveAsked, s.focused, s.lastUnit)
  }

  // Two macros that read the same, step object by step object different.
  ghost predicate SameTable<T>(a: Table<T>, pv: map<T, StepVal>, b: Table<T>, qv: map<T, StepVal>) {
    a.name == b.name && a.policy == b.policy && a.triggers == b.triggers && |a.steps| == |b.steps|
    && forall i :: 0 <= i < |a.steps| ==>
      a.steps[i] in pv && b.steps[i] in qv && pv[a.steps[i]] == qv[b.steps[i]]
  }

  ghost predicate SamePayload<T>(p: Payload<T>, pv: map<T, StepVal>, q: Payload<T>, qv: map<T, StepVal>) {
    p.selected == q.selected && |p.macros| == |q.macros|
    && forall k :: 0 <= k < |p.macros| ==> SameTable(p.macros[k], pv, q.macros[k], qv)
  }

  lemma {:induction false} FindSameNames<T>(a: seq<Table<T>>, b: seq<Table<T>>, want: string)
    requires |a| == |b| && forall k :: 0 <= k < |a| ==> a[k].name == b[k].name
    ensures FindMacro(a, want) == FindMacro(b, want)
  {
    if a != [] { FindSameNames(a[1..], b[1..], want); }
  }

  // Looking the macro a seed opened up again by its own name finds the same one.
  lemma FoundAgain<T>(list: seq<Table<T>>, want: string)
    requires list != []
    ensures var k := FindMacro(list, want);
      var first := if k == |list| then 0 else k;
      FindMacro(list, Lower(list[first].name)) == first
  {
    var k := FindMacro(list, want);
    var first := if k == |list| then 0 else k;
    var again := FindMacro(list, Lower(list[first].name));
  }

  // After a seeding poll the screen shows one macro's values, in their own units.
  ghost predicate Shows<T>(t: State<T>, found: Table<T>, incoming: map<T, StepVal>) {
    && |t.Steps()| == |found.steps|
    && forall i :: 0 <= i < |found.steps| ==>
      found.steps[i] in incoming
      && t.Val(t.Steps()[i]) == incoming[found.steps[i]]
      && t.Unit(t.Steps()[i]) == incoming[found.steps[i]].FileUnit()
  }

  lemma PollShows<T>(s: State<T>, p: Payload<T>, incoming: map<T, StepVal>, made: seq<T>)
    requires Enabled(s, Poll(p, incoming, made)) && Seeds(s) && p.macros != []
    ensures Shows(Polled(s, p, incoming, made), p.macros[Found(Arrived(s, p, incoming), None)], incoming)
  {
    var a, t := Arrived(s, p, incoming), Polled(s, p, incoming, made);
    PollOpens(s, p, incoming, made);
    var found := p.macros[Found(a, None)];
    forall i | 0 <= i < |found.steps|
      ensures found.steps[i] in incoming && t.Val(t.Steps()[i]) == incoming[found.steps[i]]
        && t.Unit(t.Steps()[i]) == incoming[found.steps[i]].FileUnit()
    {
      ClonedValue(s, a, t, found, incoming, made, i);
    }
  }

  // Two screens that show tables that read the same show the same values and units.
  lemma ShowSame<T>(t: State<T>, a: Table<T>, pv: map<T, StepVal>, u: State<T>, b: Table<T>, qv: map<T, StepVal>)
    requires Shows(t, a, pv) && Shows(u, b, qv) && SameTable(a, pv, b, qv)
    ensures Vals(t, t.Steps()) == Vals(u, u.Steps()) && Units(t, t.Steps()) == Units(u, u.Steps())
  {}

  // Opening the macro that is open keeps the selection and every flag.
  lemma ReopenedSame<T>(a: State<T>, t: State<T>, found: Table<T>, m1: seq<T>,
                        b: State<T>, u: State<T>, again: Table<T>, m2: seq<T>)
    requires Opened(a, t, found, m1) && Opened(b, u, again, m2)
    requires b.chosen == t.chosen && b.sel == t.sel && b.focused == t.focused && b.lastUnit == t.lastUnit
    requires found.name == again.name && found.policy == again.policy && found.triggers == again.triggers
    requires |found.steps| == |again.steps|
    requires Vals(t, t.Steps()) == Vals(u, u.Steps()) && Units(t, t.Steps()) == Units(u, u.Steps())
    ensures ViewOf(u) == ViewOf(t)
  {}

  // The second of two seeding polls opens the same macro.
  lemma SameFound<T>(a: State<T>, p: Payload<T>, pv: map<T, StepVal>, q: Payload<T>, qv: map<T, StepVal>, b: State<T>)
    requires a.payload == Some(p) && b.payload == Some(q) && p.macros != [] && SamePayload(p, pv, q, qv)
    requires Found(a, None) < |p.macros| && b.chosen == Some(p.macros[Found(a, None)].name)
    ensures Found(b, None) == Found(a, None)
  {
    var k := Found(a, None);
    FoundAgain(p.macros, Wanted(None, a.chosen, p.selected));
    assert forall j :: 0 <= j < |p.macros| ==> SameTable(p.macros[j], pv, q.macros[j], qv);
    FindSameNames(p.macros, q.macros, Lower(p.macros[k].name));
  }

  lemma SecondSeed<T>(s: State<T>, p: Payload<T>, pv: map<T, StepVal>, m1: seq<T>, t: State<T>,
                      q: Payload<T>, qv: map<T, StepVal>, m2: seq<T>)
    requires Enabled(s, Poll(p, pv, m1)) && Seeds(s) && p.macros != [] && t == Polled(s, p, pv, m1) && Seeds(t)
    requires Enabled(t, Poll(q, qv, m2)) && SamePayload(p, pv, q, qv)
    ensures ViewOf(Polled(t, q, qv, m2)) == ViewOf(t)
  {
    var a, b, u := Arrived(s, p, pv), Arrived(t, q, qv), Polled(t, q, qv, m2);
    var k := Found(a, None);
    PollOpens(s, p, pv, m1);
    SameFound(a, p, pv, q, qv, b);
    PollOpens(t, q, qv, m2);
    PollShows(s, p, pv, m1);
    PollShows(t, q, qv, m2);
    assert SameTable(p.macros[k], pv, q.macros[k], qv);
    ShowSame(t, p.macros[k], pv, u, q.macros[k], qv);
    ReopenedSame(a, t, p.macros[k], m1, b, u, q.macros[k], m2);
  }

  lemma SecondBusyPoll<T>(t: State<T>, p: Payload<T>, pv: map<T, StepVal>, q: Payload<T>, qv: map<T, StepVal>,
                          made: seq<T>)
    requires Sound(t) && Enabled(t, Poll(q, qv, made)) && !Seeds(t) && SamePayload(p, pv, q, qv)
    requires var k := FindMacro(p.macros, Lower(t.draft.value.name));
      k < |p.macros| ==> t.draft.value.triggers == p.macros[k].triggers
    ensures ViewOf(Polled(t, q, qv, made)) == ViewOf(t)
  {
    BusyPollChangesTriggersOnly(t, q, qv, made);
    SameTriggers(p.macros, pv, q.macros, qv, Lower(t.draft.value.name));
    BusyView(t, Polled(t, q, qv, made), qv);
  }

  lemma SameTriggers<T>(
      a: seq<Table<T>>, pv: map<T, StepVal>, b: seq<Table<T>>, qv: map<T, StepVal>, want: string)
    requires |a| == |b| && forall k :: 0 <= k < |a| ==> SameTable(a[k], pv, b[k], qv)
    ensures var k := FindMacro(a, want); FindMacro(b, want) == k && (k < |a| ==> a[k].triggers == b[k].triggers)
  {
    FindSameNames(a, b, want);
  }

  lemma BusyView<T>(t: State<T>, u: State<T>, incoming: map<T, StepVal>)
    requires Sound(t) && u == t.(payload := u.payload, vals := t.vals + incoming)
    requires forall r :: r in incoming ==> r !in t.vals
    ensures ViewOf(u) == ViewOf(t)
  {
    forall r | r in t.Steps() ensures r in t.units && u.Val(r) == t.Val(r) { assert Own(t, r); }
    SameStepsSameView(t, u);
  }

  lemma SameStepsSameView<T>(t: State<T>, u: State<T>)
    requires u.Steps() == t.Steps() && u.units == t.units
    requires forall r :: r in t.Steps() ==> r in t.units && u.Val(r) == t.Val(r)
    ensures Vals(u, u.Steps()) == Vals(t, t.Steps()) && Units(u, u.Steps()) == Units(t, t.Steps())
  {
    forall i | 0 <= i < |t.Steps()| ensures u.Val(t.Steps()[i]) == t.Val(t.Steps()[i]) {
      assert t.Steps()[i] in t.Steps();
    }
  }

  lemma EmptyPolls<T>(s: State<T>, p: Payload<T>, pv: map<T, StepVal>, m1: seq<T>, t: State<T>,
                      q: Payload<T>, qv: map<T, StepVal>, m2: seq<T>)
    requires Seeds(s) && p.macros == [] && q.macros == [] && t == Polled(s, p, pv, m1)
    ensures ViewOf(Polled(t, q, qv, m2)) == ViewOf(t)
  {
    assert t.draft.None? && Seeds(t);
  }

  // A seeding poll leaves the triggers of the macro it opened, which is found again by its name.
  lemma SeededTriggers<T>(s: State<T>, p: Payload<T>, pv: map<T, StepVal>, made: seq<T>)
    requires Enabled(s, Poll(p, pv, made)) && Seeds(s) && p.macros != []
    ensures var t := Polled(s, p, pv, made);
      && t.draft.Some?
      && var k := FindMacro(p.macros, Lower(t.draft.value.name));
      k < |p.macros| && t.draft.value.triggers == p.macros[k].triggers
  {
    PollOpens(s, p, pv, made);
    FoundAgain(p.macros, Wanted(None, s.chosen, p.selected));
  }

  /** Two polls that carry the same payload, whatever is wrong in it, show what one shows. */
  lemma TwoPollsShowOne<T>(s: State<T>, p: Payload<T>, pv: map<T, StepVal>, m1: seq<T>,
                           q: Payload<T>, qv: map<T, StepVal>, m2: seq<T>)
    requires Sound(s) && Enabled(s, Poll(p, pv, m1))
    requires Enabled(Polled(s, p, pv, m1), Poll(q, qv, m2)) && SamePayload(p, pv, q, qv)
    ensures ViewOf(Polled(Polled(s, p, pv, m1), q, qv, m2)) == ViewOf(Polled(s, p, pv, m1))
  {
    var t := Polled(s, p, pv, m1);
    EventSound(s, Poll(p, pv, m1));
    if !Seeds(s) {
      BusyPollChangesTriggersOnly(s, p, pv, m1);
      SecondBusyPoll(t, p, pv, q, qv, m2);
    } else if p.macros == [] {
      EmptyPolls(s, p, pv, m1, t, q, qv, m2);
    } else if Seeds(t) {
      SecondSeed(s, p, pv, m1, t, q, qv, m2);
    } else {
      SeededTriggers(s, p, pv, m1);
      SecondBusyPoll(t, p, pv, q, qv, m2);
    }
  }

  // ----- Save's question

  // The draft as Save's question was about it; triggers are not part of it.
  ghost predicate SameBody<T>(s: State<T>, t: State<T>) {
    SameTitle(s, t) && forall r :: r in s.Steps() && r in s.vals ==> r in t.vals && t.vals[r] == s.vals[r]
  }

  ghost predicate SameTitle<T>(s: State<T>, t: State<T>) {
    s.draft.Some? && t.draft.Some? && t.draft.value.name == s.draft.value.name
    && t.draft.value.steps == s.draft.value.steps && t.draft.value.policy == s.draft.value.policy
  }

  predicate Lacks(v: StepVal) { v.ms.None? && v.frames.None? }

  // Choosing milliseconds for a row that is in milliseconds already is no edit; but a row with no duration at all
  // counts as one, and is given one.
  ghost predicate Fills<T>(s: State<T>, e: Event<T>) {
    e.SetUnit? && e.unit == InMs && s.Has(e.index)
    && var r := s.At(e.index);
    r in s.units && s.units[r] == InMs && Lacks(s.Val(r))
  }

  // Only rows without a duration changed, and were given one.
  ghost predicate Grew<T>(s: State<T>, t: State<T>) {
    SameTitle(s, t)
    && forall r :: r in s.Steps() && r in s.vals ==>
      r in t.vals && (t.vals[r] == s.vals[r] || (Lacks(s.vals[r]) && !Lacks(t.vals[r])))
  }

  // While the question stands after an event, it stood before and the event filled in a duration or did nothing.
  ghost predicate Stands<T>(s: State<T>, t: State<T>, filled: bool) {
    s.saveAsked && Grew(s, t) && (SameBody(s, t) <==> !filled)
  }

  // A row asked for the unit it is in: only a row without a duration changes.
  lemma UnitStays<T>(s: State<T>, i: int, want: StepUnit)
    requires Sound(s) && s.Has(i) && s.saveAsked
    requires s.At(i) in s.units && s.units[s.At(i)] == want && s.Val(s.At(i)).FileUnit() == want
    ensures var r := s.At(i);
      var t := s.(lastUnit := want).Set(r, s.Val(r).Converted(want)).(units := s.units[r := want]);
      Stands(s, t, Fills(s, SetUnit(i, want)))
  {
    assert Own(s, s.At(i)) && s.At(i) in s.Steps();
  }

  lemma StillAsked<T>(s: State<T>)
    requires Refreshed(s).saveAsked
    ensures Refreshed(s) == s
  {}

  lemma UnitQuestion<T>(s: State<T>, i: int, want: StepUnit)
    requires Sound(s) && UnitSet(s, i, want).saveAsked
    ensures Stands(s, UnitSet(s, i, want), Fills(s, SetUnit(i, want)))
  {
    if !s.Has(i) {
      StillAsked(s.(lastUnit := want));
    } else {
      var r := s.At(i);
      var t := s.(lastUnit := want).Set(r, s.Val(r).Converted(want)).(units := s.units[r := want]);
      StillAsked(t);
      UnitStays(s, i, want);
    }
  }

  /** The page's own unit toggle always asks for the other unit: it is an edit, and takes the question down. */
  lemma ToggleDropsQuestion<T>(s: State<T>, i: int)
    requires Sound(s) && s.Has(i)
    ensures !Rowed(s, ToggleUnit, i).saveAsked
  {
    assert Own(s, s.At(i));
  }

  lemma RowQuestion<T>(s: State<T>, verb: Verb, i: int)
    requires Sound(s) && s.Has(i)
    ensures Rowed(s, verb, i).saveAsked ==> Stands(s, Rowed(s, verb, i), false)
  {
    if verb == ToggleUnit { ToggleDropsQuestion(s, i); }
  }

  lemma VerbQuestion<T>(s: State<T>, verb: Verb, i: int, made: seq<T>)
    requires Sound(s) && MadeEnough(s, StepVerb(verb, i, made))
    ensures Verbed(s, verb, i, made).saveAsked ==> Stands(s, Verbed(s, verb, i, made), false)
  {
    if s.Has(i) { RowQuestion(s, verb, i); }
  }

  lemma PollQuestion<T>(s: State<T>, p: Payload<T>, incoming: map<T, StepVal>, made: seq<T>)
    requires Sound(s) && Enabled(s, Poll(p, incoming, made))
    ensures var t := Polled(s, p, incoming, made); t.saveAsked ==> Stands(s, t, false)
  {
    if Seeds(s) {
      SeededDropsQuestion(Arrived(s, p, incoming), None, made);
    } else {
      BusyPollChangesTriggersOnly(s, p, incoming, made);
      if s.saveAsked { BusyStands(s, Polled(s, p, incoming, made), incoming); }
    }
  }

  lemma BusyStands<T>(s: State<T>, t: State<T>, incoming: map<T, StepVal>)
    requires s.saveAsked && SameTitle(s, t) && t.vals == s.vals + incoming
    requires forall r :: r in incoming ==> r !in s.vals
    ensures Stands(s, t, false)
  {}

  lemma SeededDropsQuestion<T>(s: State<T>, name: Option<string>, made: seq<T>)
    requires |made| == SeedNeeds(s, name)
    ensures !Seeded(s, name, made).saveAsked
  {}

  lemma SlotQuestion<T>(s: State<T>, made: seq<T>)
    requires Enabled(s, SelectSlot(made))
    ensures !SlotSelected(s, made).saveAsked
  {
    if s.payload.Some? { SeededDropsQuestion(Reset(s), None, made); }
  }

  lemma EditQuestion<T>(s: State<T>, e: Event<T>)
    requires Sound(s) && Enabled(s, e)
    requires !e.AskShort? && !e.SetUnit? && !e.StepVerb? && !e.Poll? && !e.SelectSlot? && !e.Seed?
    ensures Apply(s, e).saveAsked ==> Stands(s, Apply(s, e), false)
  {}

  lemma EventQuestion<T>(s: State<T>, e: Event<T>)
    requires Sound(s) && Enabled(s, e) && !e.AskShort?
    ensures Apply(s, e).saveAsked ==> Stands(s, Apply(s, e), Fills(s, e))
  {
    match e
    case SetUnit(i, want) => if UnitSet(s, i, want).saveAsked { UnitQuestion(s, i, want); }
    case StepVerb(verb, i, made) => VerbQuestion(s, verb, i, made);
    case Poll(p, incoming, made) => PollQuestion(s, p, incoming, made);
    case SelectSlot(made) => SlotQuestion(s, made);
    case Seed(name, made) => SeededDropsQuestion(s, name, made);
    case _ => EditQuestion(s, e);
  }

  // Some event of the run gave a duration to a row without one, and it did not count as an edit.
  ghost predicate FilledIn<T>(s: State<T>, es: seq<Event<T>>) {
    es != [] && (FilledIn(s, es[..|es|-1]) || Fills(Run(s, es[..|es|-1]), es[|es|-1]))
  }

  lemma StandsOn<T>(s: State<T>, m: State<T>, t: State<T>, before: bool, now: bool)
    requires Stands(s, m, before) && Stands(m, t, now) && forall r :: r in s.Steps() ==> r in s.vals
    ensures Stands(s, t, before || now)
  {
    if before {
      var r :| r in s.Steps() && m.vals[r] != s.vals[r];
      assert t.vals[r] == m.vals[r];
    } else {
      assert forall r :: r in s.Steps() ==> m.vals[r] == s.vals[r];
    }
  }

  /** While Save's question stands, the draft it is about is the draft on screen: over any run without a new question,
      if the question is still up at the end then it was up at the start, and name, steps, their values and policies
      are what they were, exactly when nobody chose milliseconds for a row that has no duration and is in milliseconds
      already. */
  lemma {:induction false} StandingQuestionMeansNoEdit<T>(s: State<T>, es: seq<Event<T>>)
    requires Sound(s) && RunEnabled(s, es)
    requires forall e :: e in es ==> !e.AskShort?
    requires Run(s, es).saveAsked
    ensures s.saveAsked && Grew(s, Run(s, es)) && (SameBody(s, Run(s, es)) <==> !FilledIn(s, es))
  {
    if es != [] {
      var front, e := es[..|es|-1], es[|es|-1];
      var m := Run(s, front);
      assert e in es && forall x :: x in front ==> x in es;
      RunSound(s, front);
      EventQuestion(m, e);
      StandingQuestionMeansNoEdit(s, front);
      assert forall r :: r in s.Steps() ==> Own(s, r);
      StandsOn(s, m, Run(s, es), FilledIn(s, front), Fills(m, e));
    }
  }

  lemma {:induction false} NothingFilledIn<T>(s: State<T>, es: seq<Event<T>>)
    requires forall e :: e in es ==> !e.SetUnit?
    ensures !FilledIn(s, es)
  {
    if es != [] {
      var front, e := es[..|es|-1], es[|es|-1];
      assert e in es && forall x :: x in front ==> x in es;
      NothingFilledIn(s, front);
    }
  }

  /** The page changes a row's unit only through the toggle. Over any run of its own events without a new question, a
      question still up at the end was up at the start, and name, steps, values and policies are what they were. */
  lemma QuestionOutlivesNoEdit<T>(s: State<T>, es: seq<Event<T>>)
    requires Sound(s) && RunEnabled(s, es)
    requires forall e :: e in es ==> !e.AskShort? && !e.SetUnit?
    requires Run(s, es).saveAsked
    ensures s.saveAsked && SameBody(s, Run(s, es))
  {
    StandingQuestionMeansNoEdit(s, es);
    NothingFilledIn(s, es);
  }

  /** It happens: a draft with a short row and a row without a duration, Save's question up, and milliseconds chosen
      for the second row. It is given 17 ms while the question stands and the draft counts as unchanged. */
  lemma UnitFillsSilently()
    ensures var blank := StepVal([], None, None, false);
      var draft := Table("m", [0, 1], Policy("finish", "ignore", "none", "once", None, None, false), []);
      var s := State(None, Some(draft), map[0 := blank.(ms := Some(5)), 1 := blank], map[0 := InMs, 1 := InMs],
        true, Some("m"), Some("m"), false, None, false, true, InMs);
      var t := UnitSet(s, 1, InMs);
      Sound(s) && t.saveAsked && !t.dirty && s.Val(1).ms == None && t.Val(1).ms == Some(17)
  {
    var blank := StepVal([], None, None, false);
    var draft := Table("m", [0, 1], Policy("finish", "ignore", "none", "once", None, None, false), []);
    var s := State(None, Some(draft), map[0 := blank.(ms := Some(5)), 1 := blank], map[0 := InMs, 1 := InMs],
      true, Some("m"), Some("m"), false, None, false, true, InMs);
    assert s.Val(s.Steps()[0]).Length().IsShort();
    var t := UnitSet(s, 1, InMs);
    assert t.Val(s.Steps()[0]).Length().IsShort();
  }
}
