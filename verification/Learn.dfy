/** The learn flow: arm, poll, hit, cancel, with requests in flight across every await. */
module Learn {
  import opened Common

  /** A poll request on the wire, with what `pollLearn` captured before it awaited. */
  datatype Poll = Poll(id: nat, gen: nat, targets: seq<string>)

  datatype Start = Start(gen: nat, targets: seq<string>)

  /** What a captured key did: joined one control, replaced one control's keys, or went to several. */
  datatype How = AddKey | SaveBinding | MapAll

  datatype Write = Write(poll: nat, gen: nat, targets: seq<string>, key: string, how: How)

  /** `armed` and `writes` are history: the controls each generation was armed on, and what was written. */
  datatype State = State(
    targets: seq<string>, gen: nat, addMode: bool, timer: bool,
    starts: set<Start>, polls: set<Poll>, nextPoll: nat,
    armed: map<nat, seq<string>>, writes: seq<Write>)

  const INITIAL: State := State([], 0, false, false, {}, {}, 0, map[], [])

  datatype Answer = Listening | Hit(key: Option<string>) | Ended | Threw

  datatype Event =
    | Arm(fns: seq<string>)
    | StartAnswered(start: Start, listening: bool)
    | StartThrew(failed: Start)
    | Tick
    | PollAnswered(poll: Poll, answer: Answer)
    | Cancel
    | Mode(add: bool)

  function Cancelled(s: State): State {
    s.(timer := false, targets := [], gen := s.gen + 1, addMode := false)
  }

  // Clicking the one control being recorded cancels it.
  predicate IsCancellingClick(s: State, fns: seq<string>) {
    |s.targets| == 1 && |fns| == 1 && s.targets[0] == fns[0]
  }

  function Armed(s: State, fns: seq<string>): State {
    if fns == [] then s
    else if IsCancellingClick(s, fns) then Cancelled(s)
    else
      var gen := s.gen + 1;
      s.(targets := fns, gen := gen, addMode := false,
         starts := s.starts + {Start(gen, fns)}, armed := s.armed[gen := fns])
  }

  function AfterStart(s: State, start: Start, listening: bool): State {
    var t := s.(starts := s.starts - {start});
    if s.gen != start.gen then t
    else if !listening then t.(targets := [])
    else t.(timer := true)
  }

  // A start whose request threw: its handler does not look at the generation.
  function AfterStartThrew(s: State, start: Start): State {
    s.(starts := s.starts - {start}, targets := [])
  }

  function Ticked(s: State): State {
    if s.targets == [] then s.(timer := false)
    else s.(polls := s.polls + {Poll(s.nextPoll, s.gen, s.targets)}, nextPoll := s.nextPoll + 1)
  }

  function HowFor(s: State, targets: seq<string>): How {
    if |targets| != 1 then MapAll else if s.addMode then AddKey else SaveBinding
  }

  // A hit with no key name, or an empty one, ends the arm and writes nothing.
  predicate HasKey(key: Option<string>) { key.Some? && key.value != "" }

  function AfterPoll(s: State, p: Poll, a: Answer): State {
    var t := s.(polls := s.polls - {p});
    if a.Threw? || s.gen != p.gen then t
    else
      match a
      case Listening => t
      case Hit(key) =>
        var u := t.(timer := false, targets := []);
        if !HasKey(key) then u
        else u.(writes := u.writes + [Write(p.id, p.gen, p.targets, key.value, HowFor(s, p.targets))])
      case _ => t.(timer := false, targets := [])
  }

  function Apply(s: State, e: Event): State {
    match e
    case Arm(fns) => Armed(s, fns)
    case StartAnswered(start, listening) => AfterStart(s, start, listening)
    case StartThrew(start) => AfterStartThrew(s, start)
    case Tick => Ticked(s)
    case PollAnswered(p, a) => AfterPoll(s, p, a)
    case Cancel => Cancelled(s)
    case Mode(add) => s.(addMode := add)
  }

  predicate Enabled(s: State, e: Event) {
    match e
    case StartAnswered(start, _) => start in s.starts
    case StartThrew(start) => start in s.starts
    case Tick => s.timer
    case PollAnswered(p, _) => p in s.polls
    case _ => true
  }

  function Run(s: State, es: seq<Event>): State {
    if es == [] then s else Apply(Run(s, es[..|es|-1]), es[|es|-1])
  }

  predicate RunEnabled(s: State, es: seq<Event>) {
    es == [] || (RunEnabled(s, es[..|es|-1]) && Enabled(Run(s, es[..|es|-1]), es[|es|-1]))
  }

  // ----- safety in every interleaving

  ghost predicate Inv(s: State) {
    && (s.targets != [] ==> s.gen in s.armed && s.armed[s.gen] == s.targets)
    && (forall g :: g in s.armed ==> 0 < g <= s.gen)
    && (forall p :: p in s.polls ==>
      p.gen in s.armed && p.targets == s.armed[p.gen] && p.id < s.nextPoll)
    && (forall w :: w in s.writes ==>
      w.gen in s.armed && w.targets == s.armed[w.gen] && w.poll < s.nextPoll)
  }

  lemma PollKeepsInv(s: State, p: Poll, a: Answer)
    requires Inv(s) && p in s.polls
    ensures Inv(AfterPoll(s, p, a))
  {}

  lemma ArmKeepsInv(s: State, fns: seq<string>)
    requires Inv(s)
    ensures Inv(Armed(s, fns))
  {}

  lemma EventKeepsInv(s: State, e: Event)
    requires Inv(s) && Enabled(s, e)
    ensures Inv(Apply(s, e))
  {
    match e
    case Arm(fns) => ArmKeepsInv(s, fns);
    case PollAnswered(p, a) => PollKeepsInv(s, p, a);
    case _ =>
  }

  lemma EventKeeps(s: State, e: Event)
    requires Inv(s) && Enabled(s, e)
    ensures Inv(Apply(s, e))
    ensures Apply(s, e).gen >= s.gen && Apply(s, e).nextPoll >= s.nextPoll
    ensures s.writes <= Apply(s, e).writes
    ensures forall g :: g in s.armed ==> g in Apply(s, e).armed && Apply(s, e).armed[g] == s.armed[g]
  {
    EventKeepsInv(s, e);
  }

  /** In every interleaving, from the start of the page, a captured key is written only to the controls
      that were armed under the generation its poll was sent in. */
  lemma {:induction false} WritesOnlyToTheArmed(es: seq<Event>)
    requires RunEnabled(INITIAL, es)
    ensures Inv(Run(INITIAL, es))
    ensures forall w :: w in Run(INITIAL, es).writes ==>
      w.gen in Run(INITIAL, es).armed && w.targets == Run(INITIAL, es).armed[w.gen] && w.targets != []
  {
    if es != [] {
      var s, e := Run(INITIAL, es[..|es|-1]), es[|es|-1];
      WritesOnlyToTheArmed(es[..|es|-1]);
      EventKeeps(s, e);
    }
    ArmedAreSome(es);
  }

  lemma {:induction false} ArmedAreSome(es: seq<Event>)
    ensures forall g :: g in Run(INITIAL, es).armed ==> Run(INITIAL, es).armed[g] != []
  {
    if es != [] { ArmedAreSome(es[..|es|-1]); }
  }

  // What only a poll sent in the current generation can do.
  lemma WriteIsCurrent(s: State, e: Event)
    requires Enabled(s, e) && Apply(s, e).writes != s.writes
    ensures e.PollAnswered? && e.poll.gen == s.gen
    ensures |Apply(s, e).writes| == |s.writes| + 1
    ensures Apply(s, e).writes == s.writes + [Apply(s, e).writes[|s.writes|]]
    ensures Apply(s, e).writes[|s.writes|].poll == e.poll.id && Apply(s, e).writes[|s.writes|].gen == s.gen
  {}

  // Polls in flight that belong to no generation from now on.
  ghost predicate Stale(s: State, before: nat) {
    forall p :: p in s.polls && p.id < before ==> p.gen < s.gen
  }

  lemma StaleStays(s: State, e: Event, before: nat)
    requires Inv(s) && Stale(s, before) && before <= s.nextPoll && Enabled(s, e)
    ensures Stale(Apply(s, e), before)
    ensures Apply(s, e).writes != s.writes ==>
      Apply(s, e).writes == s.writes + [Apply(s, e).writes[|s.writes|]] && Apply(s, e).writes[|s.writes|].poll >= before
  {
    var t := Apply(s, e);
    assert forall p :: p in t.polls ==> p in s.polls || p.id == s.nextPoll;
    if t.writes != s.writes { WriteIsCurrent(s, e); }
  }

  lemma NewGenerationIsStale(s: State, e: Event)
    requires Inv(s) && (e.Cancel? || (e.Arm? && e.fns != []))
    ensures Inv(Apply(s, e)) && Stale(Apply(s, e), s.nextPoll)
    ensures Apply(s, e).nextPoll == s.nextPoll && Apply(s, e).writes == s.writes
  {
    EventKeeps(s, e);
    assert forall p :: p in s.polls ==> p.gen in s.armed;
  }

  /** Once a learn is cancelled or another one armed, no poll sent before ever writes, whatever is
      answered to it and whenever: every later write comes from a poll sent later. */
  lemma {:induction false} NoWriteFromBefore(s: State, e: Event, es: seq<Event>)
    requires Inv(s) && (e.Cancel? || (e.Arm? && e.fns != [])) && RunEnabled(Apply(s, e), es)
    ensures Inv(Run(Apply(s, e), es)) && Stale(Run(Apply(s, e), es), s.nextPoll)
    ensures s.nextPoll <= Run(Apply(s, e), es).nextPoll && s.writes <= Run(Apply(s, e), es).writes
    ensures forall k :: |s.writes| <= k < |Run(Apply(s, e), es).writes| ==>
      Run(Apply(s, e), es).writes[k].poll >= s.nextPoll
  {
    if es == [] {
      NewGenerationIsStale(s, e);
    } else {
      var t, last := Run(Apply(s, e), es[..|es|-1]), es[|es|-1];
      NoWriteFromBefore(s, e, es[..|es|-1]);
      EventKeeps(t, last);
      StaleStays(t, last, s.nextPoll);
    }
  }

  // The mode last chosen since the last arm or cancel; replace to begin with.
  function ModeSince(es: seq<Event>): bool {
    if es == [] then false
    else
      match es[|es|-1]
      case Mode(add) => add
      case Cancel => false
      case Arm(fns) => if fns == [] then ModeSince(es[..|es|-1]) else false
      case _ => ModeSince(es[..|es|-1])
  }

  /** A one-control hit replaces or adds as was last chosen since its arm, replacing unless told to add;
      several controls are always bound together; and an empty key name is bound to nothing. */
  lemma {:induction false} WriteUsesChosenMode(es: seq<Event>, p: Poll, key: string)
    requires RunEnabled(INITIAL, es) && p in Run(INITIAL, es).polls && p.gen == Run(INITIAL, es).gen
    ensures Apply(Run(INITIAL, es), PollAnswered(p, Hit(Some(key)))).writes == Run(INITIAL, es).writes +
      if key == "" then []
      else [Write(p.id, p.gen, p.targets, key,
                  if |p.targets| != 1 then MapAll else if ModeSince(es) then AddKey else SaveBinding)]
  {
    ModeIsSince(es);
  }

  lemma {:induction false} ModeIsSince(es: seq<Event>)
    ensures Run(INITIAL, es).addMode == ModeSince(es)
  {
    if es != [] { ModeIsSince(es[..|es|-1]); }
  }

  // ----- at most one write per arm

  ghost predicate PollsOf(s: State, g: nat) {
    exists p :: p in s.polls && p.gen == g
  }

  function CountIn(ws: seq<Write>, g: nat): nat {
    if ws == [] then 0 else CountIn(ws[..|ws|-1], g) + if ws[|ws|-1].gen == g then 1 else 0
  }

  // Polls never overlap: at every point at most one is in flight.
  ghost predicate OneAtATime(s: State, es: seq<Event>) {
    (forall p, q :: p in Run(s, es).polls && q in Run(s, es).polls ==> p == q)
    && (es != [] ==> OneAtATime(s, es[..|es|-1]))
  }

  // Nothing more will be written in generation g.
  ghost predicate Finished(s: State, g: nat) {
    s.gen >= g && (s.gen == g ==> s.targets == []) && !PollsOf(s, g)
  }

  lemma FinishedStays(s: State, e: Event, g: nat)
    requires Finished(s, g) && Enabled(s, e)
    ensures Finished(Apply(s, e), g) && CountIn(Apply(s, e).writes, g) == CountIn(s.writes, g)
  {
    var t := Apply(s, e);
    assert forall p :: p in t.polls ==> p in s.polls || (s.targets != [] && p.gen == s.gen);
    if t.writes != s.writes {
      WriteIsCurrent(s, e);
      CountAppend(s.writes, t.writes[|s.writes|], g);
    }
  }

  lemma CountAppend(ws: seq<Write>, w: Write, g: nat)
    ensures CountIn(ws + [w], g) == CountIn(ws, g) + if w.gen == g then 1 else 0
  {
    assert (ws + [w])[..|ws|] == ws;
  }

  /** While polls do not overlap, each arm causes at most one write. */
  lemma {:induction false} AtMostOneWritePerArm(es: seq<Event>, g: nat)
    requires RunEnabled(INITIAL, es) && OneAtATime(INITIAL, es)
    ensures CountIn(Run(INITIAL, es).writes, g) <= 1
    ensures CountIn(Run(INITIAL, es).writes, g) == 1 ==> Finished(Run(INITIAL, es), g)
  {
    if es != [] {
      var s, e := Run(INITIAL, es[..|es|-1]), es[|es|-1];
      AtMostOneWritePerArm(es[..|es|-1], g);
      NextWrite(s, e, g);
    }
  }

  lemma NextWrite(s: State, e: Event, g: nat)
    requires Enabled(s, e) && forall p, q :: p in s.polls && q in s.polls ==> p == q
    requires CountIn(s.writes, g) <= 1 && (CountIn(s.writes, g) == 1 ==> Finished(s, g))
    ensures CountIn(Apply(s, e).writes, g) <= 1
    ensures CountIn(Apply(s, e).writes, g) == 1 ==> Finished(Apply(s, e), g)
  {
    var t := Apply(s, e);
    if CountIn(s.writes, g) == 1 {
      FinishedStays(s, e, g);
    } else if t.writes != s.writes {
      WriteIsCurrent(s, e);
      CountAppend(s.writes, t.writes[|s.writes|], g);
    }
  }

  /** Without that, exactly one thing lets a second write follow a hit: another poll of the same
      generation still in flight. Then one more answer writes again; otherwise no run ever does. */
  lemma SecondWriteIff(s: State, p: Poll, key: string)
    requires Inv(s) && p in s.polls && p.gen == s.gen
    ensures var t := AfterPoll(s, p, Hit(Some(key)));
      PollsOf(t, s.gen) <==>
        exists es :: RunEnabled(t, es) && CountIn(Run(t, es).writes, s.gen) > CountIn(t.writes, s.gen)
  {
    var t := AfterPoll(s, p, Hit(Some(key)));
    if PollsOf(t, s.gen) {
      var q :| q in t.polls && q.gen == s.gen;
      AnotherWrites(t, q, "K");
      var es := [PollAnswered(q, Hit(Some("K")))];
      assert RunEnabled(t, es) && CountIn(Run(t, es).writes, s.gen) > CountIn(t.writes, s.gen);
    } else {
      forall es | RunEnabled(t, es) ensures CountIn(Run(t, es).writes, s.gen) == CountIn(t.writes, s.gen) {
        FinishedForever(t, es, s.gen);
      }
    }
  }

  lemma AnotherWrites(t: State, q: Poll, key: string)
    requires q in t.polls && q.gen == t.gen && key != ""
    ensures var es := [PollAnswered(q, Hit(Some(key)))];
      RunEnabled(t, es) && CountIn(Run(t, es).writes, t.gen) == CountIn(t.writes, t.gen) + 1
  {
    var again := PollAnswered(q, Hit(Some(key)));
    RunOne(t, again);
    CountAppend(t.writes, Apply(t, again).writes[|t.writes|], t.gen);
  }

  lemma RunOne(s: State, e: Event)
    ensures Run(s, [e]) == Apply(s, e) && (RunEnabled(s, [e]) <==> Enabled(s, e))
  {
    assert [e][..0] == [];
    assert Run(s, []) == s;
  }

  lemma {:induction false} FinishedForever(s: State, es: seq<Event>, g: nat)
    requires Finished(s, g) && RunEnabled(s, es)
    ensures Finished(Run(s, es), g) && CountIn(Run(s, es).writes, g) == CountIn(s.writes, g)
  {
    if es != [] {
      FinishedForever(s, es[..|es|-1], g);
      FinishedStays(Run(s, es[..|es|-1]), es[|es|-1], g);
    }
  }

  /** It happens: one arm, two polls in flight, both answered with a hit that names a key, and it is written twice. */
  lemma OverlappingPollsWriteTwice(key: string)
    ensures var armed := Apply(Apply(INITIAL, Arm(["A"])), StartAnswered(Start(1, ["A"]), true));
      var s := Apply(Apply(armed, Tick), Tick);
      var first, second := Poll(0, 1, ["A"]), Poll(1, 1, ["A"]);
      && first in s.polls && second in s.polls
      && var t := Apply(Apply(s, PollAnswered(first, Hit(Some(key)))), PollAnswered(second, Hit(Some(key))));
      if key == "" then t.writes == [] else |t.writes| == 2 && t.writes[0].gen == 1 && t.writes[1].gen == 1
  {}

  // ----- a start that throws

  /** A start request that throws ends whatever arm is current, its own or a newer one: nothing is ever
      written for it, however the run goes on, exactly when no poll of it is in flight. */
  lemma ThrownStartEndsCurrentArm(s: State, start: Start)
    requires start in s.starts
    ensures !PollsOf(s, s.gen) <==>
      forall es :: RunEnabled(AfterStartThrew(s, start), es) ==>
        CountIn(Run(AfterStartThrew(s, start), es).writes, s.gen) == CountIn(s.writes, s.gen)
  {
    var t := AfterStartThrew(s, start);
    if PollsOf(s, s.gen) {
      var p :| p in s.polls && p.gen == s.gen;
      var hit := PollAnswered(p, Hit(Some("K")));
      RunOne(t, hit);
      CountAppend(t.writes, Apply(t, hit).writes[|t.writes|], s.gen);
      assert RunEnabled(t, [hit]) && CountIn(Run(t, [hit]).writes, s.gen) > CountIn(s.writes, s.gen);
    } else {
      forall es | RunEnabled(t, es) ensures CountIn(Run(t, es).writes, s.gen) == CountIn(s.writes, s.gen) {
        FinishedForever(t, es, s.gen);
      }
    }
  }

  /** It happens: arm one control, arm another, and let the first request throw. The second arm is dead:
      nothing it is told will ever be written, until something is armed again. */
  lemma ThrownStartKillsSecondArm()
    ensures var es := [Arm(["A"]), Arm(["B"]), StartThrew(Start(1, ["A"]))];
      RunEnabled(INITIAL, es) && Run(INITIAL, es).gen == 2
      && Run(INITIAL, es).armed[2] == ["B"] && Finished(Run(INITIAL, es), 2)
  {
    var a, b, c := Arm(["A"]), Arm(["B"]), StartThrew(Start(1, ["A"]));
    var es := [a, b, c];
    RunOne(INITIAL, a);
    assert [a, b][..1] == [a] && es[..2] == [a, b];
    var t := Run(INITIAL, [a, b]);
    assert t == Apply(Apply(INITIAL, a), b) && RunEnabled(INITIAL, [a, b]);
  }

  // ----- what each event does

  /** Arming nothing does nothing; clicking the one control that is being recorded cancels; anything else is armed,
      under a generation of its own, in replace mode, with a start request on the wire. */
  lemma ArmArms(s: State, fns: seq<string>)
    ensures var t := Apply(s, Arm(fns));
      if fns == [] then t == s
      else if s.targets == fns && |fns| == 1 then t == Apply(s, Cancel)
      else t == s.(targets := fns, gen := s.gen + 1, addMode := false,
                   starts := s.starts + {Start(s.gen + 1, fns)}, armed := s.armed[s.gen + 1 := fns])
  {
    if |s.targets| == 1 && |fns| == 1 && s.targets[0] == fns[0] { assert s.targets == fns; }
  }

  /** A cancel disarms, stops polling and leaves the generation behind. */
  lemma CancelDisarms(s: State)
    ensures Apply(s, Cancel) == s.(targets := [], timer := false, addMode := false, gen := s.gen + 1)
  {}

  /** A start that is answered begins the polling, or disarms when the daemon is not listening; one that was left behind
      does neither. */
  lemma StartBegins(s: State, start: Start, listening: bool)
    requires Enabled(s, StartAnswered(start, listening))
    ensures var t := Apply(s, StartAnswered(start, listening));
      && t.starts == s.starts - {start} && t.gen == s.gen && t.polls == s.polls && t.writes == s.writes
      && t.targets == (if start.gen == s.gen && !listening then [] else s.targets)
      && t.timer == (s.timer || (start.gen == s.gen && listening))
  {}

  /** A tick asks the daemon, for the controls armed at that moment, or stops when none is. */
  lemma TickAsks(s: State)
    ensures Apply(s, Tick) ==
      if s.targets == [] then s.(timer := false)
      else s.(polls := s.polls + {Poll(s.nextPoll, s.gen, s.targets)}, nextPoll := s.nextPoll + 1)
  {}

  /** An answer that was left behind, or never came, changes nothing but the wire; one that is still waiting keeps
      the arm; any other ends it, and only a hit that names a key writes. */
  lemma AnswerEnds(s: State, p: Poll, a: Answer)
    requires Enabled(s, PollAnswered(p, a))
    ensures var t := Apply(s, PollAnswered(p, a));
      && t.polls == s.polls - {p}
      && (if a.Threw? || a.Listening? || p.gen != s.gen then t == s.(polls := t.polls)
          else t == s.(polls := t.polls, targets := [], timer := false, writes := t.writes))
      && (t.writes != s.writes <==> a.Hit? && a.key.Some? && a.key.value != "" && p.gen == s.gen)
  {}

  /** And so a key is learned: arm, let the daemon listen, poll, press, and it is written to the controls that were
      armed, once. */
  lemma KeyIsLearned(s: State, fns: seq<string>, key: string)
    requires fns != [] && key != "" && !(s.targets == fns && |fns| == 1)
    ensures var armed := Apply(s, Arm(fns));
      var start := Start(armed.gen, fns);
      Enabled(armed, StartAnswered(start, true))
      && var asking := Apply(Apply(armed, StartAnswered(start, true)), Tick);
      var p := Poll(s.nextPoll, armed.gen, fns);
      Enabled(asking, PollAnswered(p, Hit(Some(key))))
      && var done := Apply(asking, PollAnswered(p, Hit(Some(key))));
      && done.writes == s.writes + [Write(p.id, p.gen, fns, key, if |fns| != 1 then MapAll else SaveBinding)]
      && done.targets == [] && !done.timer
  {
    ArmArms(s, fns);
  }

  // ----- the page

  /** The page's learn variables. The history fields are what the page has on the wire and has done. */
  class Page {
    var learnTargets: seq<string>
    var learnGen: nat
    var learnAdd: bool
    var learnTimer: bool
    ghost var starts: set<Start>
    ghost var polls: set<Poll>
    ghost var nextPoll: nat
    ghost var armed: map<nat, seq<string>>
    ghost var writes: seq<Write>

    ghost function Now(): State
      reads this
    {
      State(learnTargets, learnGen, learnAdd, learnTimer, starts, polls, nextPoll, armed, writes)
    }

    constructor ()
      ensures Now() == INITIAL
    {
      learnTargets, learnGen, learnAdd, learnTimer := [], 0, false, false;
      starts, polls, nextPoll, armed, writes := {}, {}, 0, map[], [];
    }

    method CancelLearn()
      modifies this
      ensures Now() == Apply(old(Now()), Cancel)
    {
      learnTimer := false;
      learnTargets := [];
      learnGen := learnGen + 1;
      learnAdd := false;
    }

    /** `startLearn` up to its await. */
    method StartLearn(fns: seq<string>)
      modifies this
      ensures Now() == Apply(old(Now()), Arm(fns))
    {
      if |fns| == 0 { return; }
      if |learnTargets| == 1 && |fns| == 1 && learnTargets[0] == fns[0] {
        CancelLearn();
        return;
      }
      learnTargets := fns;
      learnGen := learnGen + 1;
      learnAdd := false;
      starts, armed := starts + {Start(learnGen, fns)}, armed[learnGen := fns];
    }

    /** `startLearn` after its await. */
    method StartReplied(gen: nat, fns: seq<string>, listening: bool)
      requires Start(gen, fns) in starts
      modifies this
      ensures Now() == Apply(old(Now()), StartAnswered(Start(gen, fns), listening))
    {
      starts := starts - {Start(gen, fns)};
      if learnGen != gen { return; }
      if !listening {
        learnTargets := [];
        return;
      }
      learnTimer := true;
    }

    method StartFailed(gen: nat, fns: seq<string>)
      requires Start(gen, fns) in starts
      modifies this
      ensures Now() == Apply(old(Now()), StartThrew(Start(gen, fns)))
    {
      starts := starts - {Start(gen, fns)};
      learnTargets := [];
    }

    /** `pollLearn` up to its await. */
    method PollLearn()
      requires learnTimer
      modifies this
      ensures Now() == Apply(old(Now()), Tick)
    {
      if |learnTargets| == 0 {
        learnTimer := false;
        return;
      }
      polls, nextPoll := polls + {Poll(nextPoll, learnGen, learnTargets)}, nextPoll + 1;
    }

    /** `pollLearn` after its await: `gen` and `targets` are what it captured before. */
    method PollReplied(ghost id: nat, gen: nat, targets: seq<string>, answer: Answer) returns (wrote: Option<How>)
      requires Poll(id, gen, targets) in polls
      modifies this
      ensures Now() == Apply(old(Now()), PollAnswered(Poll(id, gen, targets), answer))
      ensures wrote.Some? <==> writes != old(writes)
      ensures wrote.Some? ==> writes[|writes|-1].how == wrote.value
    {
      wrote := None;
      polls := polls - {Poll(id, gen, targets)};
      if answer.Threw? || learnGen != gen { return; }
      if answer.Listening? { return; }
      learnTimer := false;
      learnTargets := [];
      if answer.Hit? && answer.key.Some? && |answer.key.value| > 0 {
        var how := if |targets| != 1 then MapAll else if learnAdd then AddKey else SaveBinding;
        writes := writes + [Write(id, gen, targets, answer.key.value, how)];
        wrote := Some(how);
      }
    }

    method ChooseMode(add: bool)
      modifies this
      ensures Now() == Apply(old(Now()), Mode(add))
    {
      learnAdd := add;
    }
  }
}
