/** The macro draft as a state machine. `T` is the identity of a step: steps are told apart by which
    object they are, never by their index or their contents. */
module Draft {
  import opened Common
  import opened Names
  import opened Timing
  import opened Macros
  import Lens

  datatype Table<T> = Table(name: string, steps: seq<T>, policy: Policy, triggers: seq<string>)

  datatype Payload<T> = Payload(macros: seq<Table<T>>, selected: Option<string>)

  /** `vals` holds the value of every step object there has been: the draft's, the payload's, and the
      ones no longer in either. */
  datatype State<T> = State(
    payload: Option<Payload<T>>, draft: Option<Table<T>>,
    vals: map<T, StepVal>, units: map<T, StepUnit>,
    fromDisk: bool, seedName: Option<string>, chosen: Option<string>,
    dirty: bool, sel: Option<int>, focused: bool, saveAsked: bool, lastUnit: StepUnit)
  {
    ghost predicate Has(i: int) { draft.Some? && 0 <= i < |draft.value.steps| }

    ghost function At(i: int): T
      requires Has(i)
    {
      draft.value.steps[i]
    }

    ghost function Val(r: T): StepVal { if r in vals then vals[r] else FRESH_STEP }

    ghost function Unit(r: T): StepUnit { if r in units then units[r] else Val(r).FileUnit() }

    ghost function Steps(): seq<T> { if draft.Some? then draft.value.steps else [] }

    ghost function Macros(): seq<Table<T>> { if payload.Some? then payload.value.macros else [] }

    ghost predicate Busy() { dirty || focused }

    ghost function Set(r: T, v: StepVal): State<T> { this.(vals := vals[r := v]) }

    ghost function WithSteps(steps: seq<T>): State<T>
      requires draft.Some?
    {
      this.(draft := Some(draft.value.(steps := steps)))
    }

    ghost function WithPolicy(p: Policy): State<T>
      requires draft.Some?
    {
      this.(draft := Some(draft.value.(policy := p)))
    }
  }

  ghost predicate AnyShort<T>(s: State<T>, steps: seq<T>) {
    exists i :: 0 <= i < |steps| && s.Val(steps[i]).Length().IsShort()
  }

  // The question is only on screen while there is something to ask about.
  ghost function Refreshed<T>(s: State<T>): State<T> {
    if s.draft.None? then s else s.(saveAsked := s.saveAsked && AnyShort(s, s.Steps()))
  }

  ghost function Edited<T>(s: State<T>): State<T> { s.(dirty := true, saveAsked := false) }

  // ----- edits

  ghost function Clicked<T>(s: State<T>, i: int, token: string): State<T> {
    if !s.Has(i) then s
    else
      var r := s.At(i);
      Edited(s.Set(r, s.Val(r).(hold := Lens.Click(s.Val(r).hold, token))).(sel := Some(i)))
  }

  ghost function IndexIn<T>(steps: seq<T>, r: T): (k: int)
    ensures 0 <= k <= |steps|
    ensures k < |steps| ==> steps[k] == r
    ensures k == |steps| ==> r !in steps
  {
    if steps == [] then 0 else if steps[0] == r then 0 else 1 + IndexIn(steps[1..], r)
  }

  // `macroRestoreHold`: addressed by the step object; refused when it is not in the draft.
  ghost function Restored<T>(s: State<T>, r: T, hold: seq<string>): State<T> {
    if r !in s.Steps() then s
    else Edited(s.Set(r, s.Val(r).(hold := hold)).(sel := Some(IndexIn(s.Steps(), r))))
  }

  ghost function Adopt<T>(s: State<T>, made: seq<T>, vs: seq<StepVal>): (t: State<T>)
    requires |made| == |vs|
    ensures t == s.(vals := t.vals, units := t.units)
  {
    if made == [] then s
    else
      var n := |made| - 1;
      var t := Adopt(s, made[..n], vs[..n]);
      t.(vals := t.vals[made[n] := vs[n]], units := t.units[made[n] := vs[n].FileUnit()])
  }

  ghost function Inserted<T>(s: State<T>, k: int, made: seq<T>): State<T>
    requires s.draft.Some? && 0 <= k <= |s.Steps()|
  {
    if |made| != 1 then s
    else
      Edited(Adopt(s, made, [FRESH_STEP]).WithSteps(s.Steps()[..k] + made + s.Steps()[k..]).(sel := Some(k)))
  }

  // Taking element i out and putting it back at k.
  function Reinserted<T>(steps: seq<T>, i: int, k: int): seq<T>
    requires 0 <= i < |steps| && 0 <= k < |steps|
  {
    var rest := steps[..i] + steps[i+1..];
    rest[..k] + [steps[i]] + rest[k..]
  }

  ghost function Moved<T>(s: State<T>, i: int, k: int): State<T>
    requires s.Has(i) && s.Has(k)
  {
    Edited(s.WithSteps(Reinserted(s.Steps(), i, k)).(sel := Some(k)))
  }

  ghost function Deleted<T>(s: State<T>, i: int): State<T>
    requires s.Has(i)
  {
    var n := |s.Steps()|;
    if n == 1 then Edited(s.Set(s.At(0), s.Val(s.At(0)).(hold := [])).(sel := Some(0)))
    else Edited(s.WithSteps(s.Steps()[..i] + s.Steps()[i+1..]).(sel := Some(Min(i, n - 2))))
  }

  ghost function UnitSet<T>(s: State<T>, i: int, want: StepUnit): State<T> {
    var s1 := s.(lastUnit := want);
    if !s.Has(i) then Refreshed(s1)
    else
      var r := s.At(i);
      var already := r in s.units && s.units[r] == want && s.Val(r).FileUnit() == want;
      var s2 := s1.Set(r, s.Val(r).Converted(want)).(units := s.units[r := want]);
      if already then Refreshed(s2) else Edited(s2)
  }

  ghost function Selected<T>(s: State<T>, i: int): State<T> {
    if s.Has(i) then Refreshed(s.(sel := Some(i))) else s
  }

  datatype Verb = AddStep | InsertAbove | InsertBelow | DeleteStep | ToggleUnit | MoveUp | MoveDown | SelectStep

  // Where a verb puts a new step, if it is one that does and the row is there.
  function InsertionPoint(verb: Verb, i: int, n: int): (k: Option<int>)
    requires n >= 0
    ensures k.Some? ==> 0 <= k.value <= n
  {
    match verb
    case AddStep => Some(n)
    case InsertAbove => if 0 <= i <= n then Some(i) else None
    case InsertBelow => if 0 <= i < n then Some(i + 1) else None
    case _ => None
  }

  // The verbs that make no step.
  ghost function Rowed<T>(s: State<T>, verb: Verb, i: int): State<T>
    requires s.Has(i)
  {
    match verb
    case DeleteStep => Deleted(s, i)
    case ToggleUnit => UnitSet(s.(sel := Some(i)), i, if s.Unit(s.At(i)) == InFrames then InMs else InFrames)
    case MoveUp => if i == 0 then s else Moved(s, i, i - 1)
    case MoveDown => if i == |s.Steps()| - 1 then s else Moved(s, i, i + 1)
    case SelectStep => Selected(s, i)
    case _ => s
  }

  ghost function Verbed<T>(s: State<T>, verb: Verb, i: int, made: seq<T>): State<T> {
    if s.draft.None? then s
    else
      match InsertionPoint(verb, i, |s.Steps()|)
      case Some(k) => Inserted(s, k, made)
      case None => if s.Has(i) then Rowed(s, verb, i) else s
  }

  ghost function DurationSet<T>(s: State<T>, i: int, value: real): State<T> {
    if !s.Has(i) || value <= 0.0 then s
    else
      var r := s.At(i);
      var want := s.Unit(r);
      Edited(s.Set(r, s.Val(r).InUnit(want, RoundHalfUp(value)))
        .(units := s.units[r := want], lastUnit := want, sel := Some(i)))
  }

  ghost function AllowShortSet<T>(s: State<T>, on: bool): State<T> {
    if s.sel.None? || !s.Has(s.sel.value) then s
    else
      var r := s.At(s.sel.value);
      Edited(s.Set(r, s.Val(r).(allowShort := on)))
  }

  ghost function PolicySet<T>(s: State<T>, p: Option<Policy>): State<T> {
    if s.draft.None? || p.None? then s else Edited(s.WithPolicy(p.value))
  }

  ghost function MotionInserted<T>(s: State<T>, steps: seq<StepVal>, made: seq<T>): State<T> {
    if s.draft.None? || steps == [] || |made| != |steps| then s
    else Edited(Adopt(s, made, steps).WithSteps(s.Steps() + made).(sel := Some(|s.Steps()|)))
  }

  // ----- seeding and polling

  function FindMacro<T>(list: seq<Table<T>>, want: string): (k: int)
    ensures 0 <= k <= |list|
    ensures k < |list| ==> Lower(list[k].name) == want
    ensures forall j :: 0 <= j < k ==> Lower(list[j].name) != want
  {
    if list == [] then 0 else if Lower(list[0].name) == want then 0 else 1 + FindMacro(list[1..], want)
  }

  function Wanted(name: Option<string>, chosen: Option<string>, selected: Option<string>): string {
    Lower(if name.Some? then name.value else if chosen.Some? then chosen.value else selected.GetOr(""))
  }

  // Which of the payload's macros a seed opens; |list| when there is none.
  ghost function Found<T>(s: State<T>, name: Option<string>): (k: int)
    ensures 0 <= k <= |s.Macros()|
  {
    var selected := if s.payload.Some? then s.payload.value.selected else None;
    var k := FindMacro(s.Macros(), Wanted(name, s.chosen, selected));
    if k == |s.Macros()| && name.None? then 0 else k
  }

  ghost function KeptSelection<T>(s: State<T>, found: Table<T>): Option<int> {
    if s.chosen.Some? && Lower(found.name) == Lower(s.chosen.value) && s.sel.Some? && s.sel.value < |found.steps|
    then s.sel else None
  }

  ghost function Seeded<T>(s: State<T>, name: Option<string>, made: seq<T>): State<T> {
    var k := Found(s, name);
    if k == |s.Macros()| then
      s.(chosen := None, draft := None, fromDisk := false, seedName := None, dirty := false, saveAsked := false,
        sel := None)
    else
      var found := s.Macros()[k];
      if |made| != |found.steps| then s
      else
        Adopt(s, made, Vals(s, found.steps)).(
          chosen := Some(found.name), draft := Some(found.(steps := made)), fromDisk := true,
          seedName := Some(found.name), dirty := false, saveAsked := false, sel := KeptSelection(s, found))
  }

  ghost function Vals<T>(s: State<T>, steps: seq<T>): (r: seq<StepVal>)
    ensures |r| == |steps|
    ensures forall i :: 0 <= i < |steps| ==> r[i] == s.Val(steps[i])
  {
    seq(|steps|, i requires 0 <= i < |steps| => s.Val(steps[i]))
  }

  // The macro half of `applyMap`, on the payload just stored.
  ghost function Shown<T>(s: State<T>, made: seq<T>): State<T> {
    if Seeds(s) then Seeded(s, None, made)
    else
      var k := FindMacro(s.Macros(), Lower(s.draft.value.name));
      Refreshed(if k == |s.Macros()| then s
                else s.(draft := Some(s.draft.value.(triggers := s.Macros()[k].triggers))))
  }

  // A poll brings new payload objects, `incoming` among them.
  ghost function Polled<T>(s: State<T>, p: Payload<T>, incoming: map<T, StepVal>, made: seq<T>): State<T> {
    Shown(Arrived(s, p, incoming), made)
  }

  ghost function Reset<T>(s: State<T>): State<T> {
    s.(draft := None, fromDisk := false, seedName := None, chosen := None, dirty := false, sel := None,
      lastUnit := InMs, saveAsked := false)
  }

  ghost function SlotSelected<T>(s: State<T>, made: seq<T>): State<T> {
    if s.payload.None? then Reset(s) else Shown(Reset(s), made)
  }

  // ----- saving

  ghost function Asked<T>(s: State<T>): State<T> {
    if s.draft.Some? && AnyShort(s, s.Steps()) then s.(saveAsked := true) else s
  }

  ghost function QuestionCleared<T>(s: State<T>): State<T> { s.(saveAsked := false) }

  ghost function Saved<T>(s: State<T>, name: string): State<T> {
    s.(draft := if s.draft.Some? then Some(s.draft.value.(name := name)) else None,
      fromDisk := true, seedName := Some(name), chosen := Some(name), dirty := false, saveAsked := false)
  }

  // ----- events

  datatype Event<T> =
    | Click(index: int, token: string)
    | Undo(step: T, hold: seq<string>)
    | StepVerb(verb: Verb, index: int, made: seq<T>)
    | SetDuration(index: int, value: real)
    | SetUnit(index: int, unit: StepUnit)
    | SetAllowShort(on: bool)
    | ChangePolicy(field: string, word: string)
    | ChangeRate(rate: Option<real>, asGap: bool)
    | InsertMotion(motion: string, mechanism: Mechanism, made: seq<T>)
    | Focus(on: bool)
    | Seed(name: Option<string>, made: seq<T>)
    | Poll(payload: Payload<T>, incoming: map<T, StepVal>, made: seq<T>)
    | SelectSlot(made: seq<T>)
    | AskShort
    | ClearQuestion
    | MarkSaved(under: string)

  ghost function Apply<T>(s: State<T>, e: Event<T>): State<T> {
    match e
    case Click(i, token) => Clicked(s, i, token)
    case Undo(r, hold) => Restored(s, r, hold)
    case StepVerb(verb, i, made) => Verbed(s, verb, i, made)
    case SetDuration(i, value) => DurationSet(s, i, value)
    case SetUnit(i, unit) => UnitSet(s, i, unit)
    case SetAllowShort(on) => AllowShortSet(s, on)
    case ChangePolicy(field, value) =>
      PolicySet(s, if s.draft.Some? then SetPolicy(s.draft.value.policy, field, value) else None)
    case ChangeRate(rate, asGap) =>
      PolicySet(s, if s.draft.Some? then SetRate(s.draft.value.policy, rate, asGap) else None)
    case InsertMotion(name, m, made) => MotionInserted(s, MotionSteps(m, MotionOf(name)), made)
    case Focus(on) => s.(focused := on)
    case Seed(name, made) => Seeded(s, name, made)
    case Poll(p, incoming, made) => Polled(s, p, incoming, made)
    case SelectSlot(made) => SlotSelected(s, made)
    case AskShort => Asked(s)
    case ClearQuestion => QuestionCleared(s)
    case MarkSaved(name) => Saved(s, name)
  }

  // ----- what the environment may do: new objects really are new, and a payload holds only its own objects

  ghost function Made<T>(e: Event<T>): seq<T> {
    match e
    case StepVerb(_, _, made) => made
    case InsertMotion(_, _, made) => made
    case Seed(_, made) => made
    case Poll(_, _, made) => made
    case SelectSlot(made) => made
    case _ => []
  }

  ghost function Incoming<T>(e: Event<T>): map<T, StepVal> { if e.Poll? then e.incoming else map[] }

  ghost predicate InPayload<T>(p: Option<Payload<T>>, r: T) {
    p.Some? && exists k :: 0 <= k < |p.value.macros| && r in p.value.macros[k].steps
  }

  // Every step object of a payload has a value.
  ghost predicate PayloadKnown<T>(p: Option<Payload<T>>, vals: map<T, StepVal>) {
    p.Some? ==> forall k, r :: 0 <= k < |p.value.macros| && r in p.value.macros[k].steps ==> r in vals
  }

  // Every macro of a payload has a step, and every step one positive time. The page does not rely on it: what a
  // preset file says wrong is shown as it is.
  ghost predicate PayloadTimed<T>(p: Option<Payload<T>>, vals: map<T, StepVal>) {
    p.Some? ==>
      (forall k :: 0 <= k < |p.value.macros| ==> p.value.macros[k].steps != [])
      && forall k, r :: 0 <= k < |p.value.macros| && r in p.value.macros[k].steps ==> r in vals && vals[r].WellTimed()
  }

  // How many new step objects a seed makes: one for each step of the macro it opens.
  ghost function SeedNeeds<T>(s: State<T>, name: Option<string>): int {
    var k := Found(s, name);
    if k == |s.Macros()| then 0 else |s.Macros()[k].steps|
  }

  ghost predicate Seeds<T>(s: State<T>) { s.draft.None? || !s.Busy() }

  ghost function Arrived<T>(s: State<T>, p: Payload<T>, incoming: map<T, StepVal>): State<T> {
    s.(payload := Some(p), vals := s.vals + incoming)
  }

  ghost predicate Inserts<T>(s: State<T>, verb: Verb, i: int) {
    s.draft.Some? && InsertionPoint(verb, i, |s.Steps()|).Some?
  }

  ghost predicate MadeEnough<T>(s: State<T>, e: Event<T>) {
    match e
    case StepVerb(verb, i, made) => Inserts(s, verb, i) ==> |made| == 1
    case InsertMotion(motion, _, made) => s.draft.Some? ==> |made| == |MotionOf(motion)|
    case Seed(name, made) => |made| == SeedNeeds(s, name)
    case Poll(p, incoming, made) => Seeds(s) ==> |made| == SeedNeeds(Arrived(s, p, incoming), None)
    case SelectSlot(made) => s.payload.Some? ==> |made| == SeedNeeds(Reset(s), None)
    case _ => true
  }

  ghost predicate Enabled<T>(s: State<T>, e: Event<T>) {
    MadeEnough(s, e) && Distinct(Made(e))
    && (forall r :: r in Made(e) ==> r !in s.vals && r !in Incoming(e))
    && (forall r :: r in Incoming(e) ==> r !in s.vals)
    && (e.Poll? ==> PayloadKnown(Some(e.payload), e.incoming))
  }

  ghost function Run<T>(s: State<T>, es: seq<Event<T>>): State<T> {
    if es == [] then s else Apply(Run(s, es[..|es|-1]), es[|es|-1])
  }

  ghost predicate RunEnabled<T>(s: State<T>, es: seq<Event<T>>) {
    es == [] || (RunEnabled(s, es[..|es|-1]) && Enabled(Run(s, es[..|es|-1]), es[|es|-1]))
  }
}
