/** The button check's live echo: chips lit, flashed and a key strip, updated frame by frame. */
module LiveEcho {
  import opened Common

  const FLASH_MS: int := 140
  const KEY_HISTORY: nat := 12

  datatype Chip = Chip(slot: int, control: string)

  /** What one slot published: the controls held now, and those that went down since. */
  datatype SlotFrame = SlotFrame(slot: int, down: seq<string>, hit: seq<string>)

  datatype KeyEvent = KeyEvent(key: string, board: string, down: bool)

  datatype Frame = Frame(running: bool, slots: seq<SlotFrame>, keys: seq<KeyEvent>)

  // ----- held chips

  // `clearHolds` with a slot.
  function ClearedOf(down: set<Chip>, slot: int): set<Chip> { set c | c in down && c.slot != slot }

  function ChipsOf(roster: set<Chip>, slot: int, controls: seq<string>): set<Chip> {
    set c | c in roster && c.slot == slot && c.control in controls
  }

  function HoldsAfterSlots(roster: set<Chip>, down: set<Chip>, slots: seq<SlotFrame>): set<Chip> {
    if slots == [] then down
    else
      var sf := slots[|slots|-1];
      ClearedOf(HoldsAfterSlots(roster, down, slots[..|slots|-1]), sf.slot) + ChipsOf(roster, sf.slot, sf.down)
  }

  function HoldsAfter(roster: set<Chip>, down: set<Chip>, f: Frame): set<Chip> {
    HoldsAfterSlots(roster, if f.running then down else {}, f.slots)
  }

  function HoldsAfterAll(roster: set<Chip>, frames: seq<Frame>): set<Chip> {
    if frames == [] then {} else HoldsAfter(roster, HoldsAfterAll(roster, frames[..|frames|-1]), frames[|frames|-1])
  }

  /** What a slot said last within a frame, if it said anything. */
  function Said(slots: seq<SlotFrame>, slot: int): Option<seq<string>> {
    if slots == [] then None
    else if slots[|slots|-1].slot == slot then Some(slots[|slots|-1].down)
    else Said(slots[..|slots|-1], slot)
  }

  /** The controls a slot holds by the frame history: what the latest frame that carried it said, unless the
      session was seen not running after that. */
  function Holding(frames: seq<Frame>, slot: int): seq<string> {
    if frames == [] then []
    else
      var f := frames[|frames|-1];
      match Said(f.slots, slot)
      case Some(controls) => controls
      case None => if f.running then Holding(frames[..|frames|-1], slot) else []
  }

  lemma {:induction false} SlotsSay(roster: set<Chip>, down: set<Chip>, slots: seq<SlotFrame>, c: Chip)
    ensures c in HoldsAfterSlots(roster, down, slots) <==>
      if Said(slots, c.slot).Some? then c in roster && c.control in Said(slots, c.slot).value else c in down
  {
    if slots != [] { SlotsSay(roster, down, slots[..|slots|-1], c); }
  }

  /** A chip is held on screen exactly when the frame history says its slot holds its control: no other slot's
      frames, and no earlier frame of its own, can make it otherwise. */
  lemma {:induction false} HeldAgreesWithReplay(roster: set<Chip>, frames: seq<Frame>, c: Chip)
    ensures c in HoldsAfterAll(roster, frames) <==> c in roster && c.control in Holding(frames, c.slot)
  {
    if frames != [] {
      var init, f := frames[..|frames|-1], frames[|frames|-1];
      HeldAgreesWithReplay(roster, init, c);
      SlotsSay(roster, if f.running then HoldsAfterAll(roster, init) else {}, f.slots, c);
    }
  }

  // ----- flashing chips

  /** A flash-off timeout: the chip it darkens, and when it is due. */
  datatype Due = Due(chip: Chip, at: int)

  /** `timers` is the page's map from chip to timeout; `pending` the timeouts the browser holds; `lastHit` history. */
  datatype Flashes = Flashes(
    lit: set<Chip>, timers: map<Chip, nat>, pending: map<nat, Due>, nextTimer: nat, now: int, lastHit: map<Chip, int>)

  function DARK(now: int): Flashes { Flashes({}, map[], map[], 0, now, map[]) }

  function Flashed(f: Flashes, chip: Chip): Flashes {
    var kept := if chip in f.timers then f.pending - {f.timers[chip]} else f.pending;
    Flashes(f.lit + {chip}, f.timers[chip := f.nextTimer], kept[f.nextTimer := Due(chip, f.now + FLASH_MS)],
            f.nextTimer + 1, f.now, f.lastHit[chip := f.now])
  }

  function FlashedAll(roster: set<Chip>, f: Flashes, slot: int, controls: seq<string>): Flashes {
    if controls == [] then f
    else
      var g := FlashedAll(roster, f, slot, controls[..|controls|-1]);
      var chip := Chip(slot, controls[|controls|-1]);
      if chip in roster then Flashed(g, chip) else g
  }

  function FlashedSlots(roster: set<Chip>, f: Flashes, slots: seq<SlotFrame>): Flashes {
    if slots == [] then f
    else
      var sf := slots[|slots|-1];
      FlashedAll(roster, FlashedSlots(roster, f, slots[..|slots|-1]), sf.slot, sf.hit)
  }

  function Darkened(f: Flashes, timer: nat): Flashes
    requires timer in f.pending
  {
    var chip := f.pending[timer].chip;
    f.(lit := f.lit - {chip}, timers := f.timers - {chip}, pending := f.pending - {timer})
  }

  datatype Event = Arrive(frame: Frame) | Fire(timer: nat) | Advance(ms: nat)

  // A timeout never fires early; how late it is, is up to the browser.
  predicate Enabled(f: Flashes, e: Event) { e.Fire? ==> e.timer in f.pending && f.pending[e.timer].at <= f.now }

  function Apply(roster: set<Chip>, f: Flashes, e: Event): Flashes
    requires Enabled(f, e)
  {
    match e
    case Arrive(frame) => FlashedSlots(roster, f, frame.slots)
    case Fire(timer) => Darkened(f, timer)
    case Advance(ms) => f.(now := f.now + ms)
  }

  ghost predicate FlashInv(f: Flashes) {
    f.lit == f.timers.Keys
    && (forall c :: c in f.timers ==>
      f.timers[c] in f.pending && c in f.lastHit && f.pending[f.timers[c]] == Due(c, f.lastHit[c] + FLASH_MS))
    && (forall t :: t in f.pending ==>
      t < f.nextTimer && f.pending[t].chip in f.timers && f.timers[f.pending[t].chip] == t)
    && (forall c :: c in f.lastHit ==> f.lastHit[c] <= f.now && (c in f.timers || f.lastHit[c] + FLASH_MS <= f.now))
  }

  lemma FlashedKeeps(f: Flashes, chip: Chip)
    requires FlashInv(f)
    ensures FlashInv(Flashed(f, chip)) && Flashed(f, chip).now == f.now
  {
    var g := Flashed(f, chip);
    assert g.lit == g.timers.Keys;
    forall c | c in g.timers
      ensures g.timers[c] in g.pending && c in g.lastHit && g.pending[g.timers[c]] == Due(c, g.lastHit[c] + FLASH_MS)
    {
      if c != chip { assert f.pending[f.timers[c]].chip == c; }
    }
  }

  lemma {:induction false} FlashedAllKeeps(roster: set<Chip>, f: Flashes, slot: int, controls: seq<string>)
    requires FlashInv(f)
    ensures FlashInv(FlashedAll(roster, f, slot, controls))
  {
    if controls != [] {
      var init := controls[..|controls|-1];
      FlashedAllKeeps(roster, f, slot, init);
      FlashedKeeps(FlashedAll(roster, f, slot, init), Chip(slot, controls[|controls|-1]));
    }
  }

  lemma {:induction false} FlashedSlotsKeeps(roster: set<Chip>, f: Flashes, slots: seq<SlotFrame>)
    requires FlashInv(f)
    ensures FlashInv(FlashedSlots(roster, f, slots))
  {
    if slots != [] {
      var init, sf := slots[..|slots|-1], slots[|slots|-1];
      FlashedSlotsKeeps(roster, f, init);
      FlashedAllKeeps(roster, FlashedSlots(roster, f, init), sf.slot, sf.hit);
    }
  }

  lemma EventKeeps(roster: set<Chip>, f: Flashes, e: Event)
    requires FlashInv(f) && Enabled(f, e)
    ensures FlashInv(Apply(roster, f, e))
  {
    match e
    case Arrive(frame) => FlashedSlotsKeeps(roster, f, frame.slots);
    case Fire(timer) =>
      var g := Darkened(f, timer);
      assert g.lit == g.timers.Keys;
      forall t | t in g.pending ensures g.pending[t].chip in g.timers {
        assert f.timers[f.pending[t].chip] == t;
      }
    case Advance(_) =>
  }

  predicate RunEnabled(roster: set<Chip>, f: Flashes, es: seq<Event>)
    decreases |es|, 0
  {
    es == [] || (RunEnabled(roster, f, es[..|es|-1]) && Enabled(Run(roster, f, es[..|es|-1]), es[|es|-1]))
  }

  function Run(roster: set<Chip>, f: Flashes, es: seq<Event>): Flashes
    requires RunEnabled(roster, f, es)
    decreases |es|, 1
  {
    if es == [] then f else Apply(roster, Run(roster, f, es[..|es|-1]), es[|es|-1])
  }

  lemma {:induction false} RunKeeps(roster: set<Chip>, start: int, es: seq<Event>)
    requires RunEnabled(roster, DARK(start), es)
    ensures FlashInv(Run(roster, DARK(start), es))
    decreases |es|
  {
    if es != [] {
      RunKeeps(roster, start, es[..|es|-1]);
      EventKeeps(roster, Run(roster, DARK(start), es[..|es|-1]), es[|es|-1]);
    }
  }

  // ----- which chips flash

  /** Some slot of the frame says this chip's control went down. */
  ghost predicate HitIn(slots: seq<SlotFrame>, c: Chip) {
    exists i :: 0 <= i < |slots| && slots[i].slot == c.slot && c.control in slots[i].hit
  }

  // c is lit from now on, on one timeout of its own; or nothing about it changed.
  ghost predicate Restarted(g: Flashes, c: Chip) {
    c in g.lit && c in g.lastHit && g.lastHit[c] == g.now
    && c in g.timers && g.timers[c] in g.pending && g.pending[g.timers[c]] == Due(c, g.now + FLASH_MS)
  }

  ghost predicate Undisturbed(f: Flashes, g: Flashes, c: Chip) {
    (c in g.lit <==> c in f.lit) && (c in g.lastHit <==> c in f.lastHit) && (c in g.timers <==> c in f.timers)
    && (c in f.lastHit ==> g.lastHit[c] == f.lastHit[c]) && (c in f.timers ==> g.timers[c] == f.timers[c])
  }

  ghost predicate HitOrNot(f: Flashes, g: Flashes, c: Chip, hit: bool) {
    g.now == f.now && if hit then Restarted(g, c) else Undisturbed(f, g, c)
  }

  lemma OneFlash(f: Flashes, chip: Chip, c: Chip)
    requires FlashInv(f)
    ensures HitOrNot(f, Flashed(f, chip), c, c == chip)
    ensures Restarted(f, c) ==> Restarted(Flashed(f, chip), c)
  {}

  lemma HitAgain(f: Flashes, g: Flashes, h: Flashes, c: Chip, before: bool, now: bool)
    requires HitOrNot(f, g, c, before) && HitOrNot(g, h, c, now) && (Restarted(g, c) ==> Restarted(h, c))
    ensures HitOrNot(f, h, c, before || now)
  {}

  lemma {:induction false} HitsFlash(roster: set<Chip>, f: Flashes, slot: int, controls: seq<string>, c: Chip)
    requires FlashInv(f)
    ensures var g := FlashedAll(roster, f, slot, controls);
      HitOrNot(f, g, c, c in roster && c.slot == slot && c.control in controls)
      && (Restarted(f, c) ==> Restarted(g, c))
  {
    if controls != [] {
      var n := |controls| - 1;
      assert controls == controls[..n] + [controls[n]];
      var g, chip := FlashedAll(roster, f, slot, controls[..n]), Chip(slot, controls[n]);
      HitsFlash(roster, f, slot, controls[..n], c);
      FlashedAllKeeps(roster, f, slot, controls[..n]);
      OneFlash(g, chip, c);
    }
  }

  lemma HitInMore(slots: seq<SlotFrame>, c: Chip)
    requires slots != []
    ensures var n := |slots| - 1;
      HitIn(slots, c) <==> HitIn(slots[..n], c) || (slots[n].slot == c.slot && c.control in slots[n].hit)
  {
    var n := |slots| - 1;
    assert forall i :: 0 <= i < n ==> slots[..n][i] == slots[i];
  }

  lemma {:induction false} SlotsFlash(roster: set<Chip>, f: Flashes, slots: seq<SlotFrame>, c: Chip)
    requires FlashInv(f)
    ensures HitOrNot(f, FlashedSlots(roster, f, slots), c, c in roster && HitIn(slots, c))
  {
    if slots != [] {
      var n := |slots| - 1;
      var g, h := FlashedSlots(roster, f, slots[..n]), FlashedSlots(roster, f, slots);
      SlotsFlash(roster, f, slots[..n], c);
      FlashedSlotsKeeps(roster, f, slots[..n]);
      HitsFlash(roster, g, slots[n].slot, slots[n].hit, c);
      HitInMore(slots, c);
      HitAgain(f, g, h, c, c in roster && HitIn(slots[..n], c),
               c in roster && c.slot == slots[n].slot && c.control in slots[n].hit);
    }
  }

  /** A frame lights every chip of the roster that some slot of it hits, for 140 ms from now on, and touches no
      other. */
  lemma FrameFlashesItsHits(roster: set<Chip>, f: Flashes, frame: Frame, c: Chip)
    requires FlashInv(f)
    ensures var g := Apply(roster, f, Arrive(frame));
      if c in roster && HitIn(frame.slots, c) then
        c in g.lit && c in g.timers && g.timers[c] in g.pending && g.pending[g.timers[c]] == Due(c, f.now + FLASH_MS)
      else
        (c in g.lit <==> c in f.lit) && (c in g.timers <==> c in f.timers)
        && (c in f.timers ==> g.timers[c] == f.timers[c])
  {
    SlotsFlash(roster, f, frame.slots, c);
  }

  /** A timeout that fires darkens the chip it was set for, and no other. */
  lemma TimeoutDarkens(roster: set<Chip>, f: Flashes, timer: nat)
    requires FlashInv(f) && Enabled(f, Fire(timer))
    ensures var g := Apply(roster, f, Fire(timer));
      && timer !in g.pending && g.lit == f.lit - {f.pending[timer].chip}
      && (forall t :: t in f.pending && t != timer ==> t in g.pending && g.pending[t] == f.pending[t])
      && forall c :: c in g.lit ==> c in g.timers && g.timers[c] == f.timers[c]
  {}

  // ----- over whole runs

  /** The clock after these events. */
  function Clock(start: int, es: seq<Event>): int {
    if es == [] then start
    else Clock(start, es[..|es|-1]) + if es[|es|-1].Advance? then es[|es|-1].ms else 0
  }

  /** When a frame last hit this chip, by the events alone. */
  ghost function LastHit(roster: set<Chip>, start: int, es: seq<Event>, c: Chip): Option<int> {
    if es == [] then None
    else
      var init, e := es[..|es|-1], es[|es|-1];
      if e.Arrive? && c in roster && HitIn(e.frame.slots, c) then Some(Clock(start, init))
      else LastHit(roster, start, init, c)
  }

  // The page's record of the last hit is the history's.
  ghost predicate HitsRecorded(roster: set<Chip>, start: int, es: seq<Event>, c: Chip)
    requires RunEnabled(roster, DARK(start), es)
  {
    var f, hit := Run(roster, DARK(start), es), LastHit(roster, start, es, c);
    f.now == Clock(start, es) && (c in f.lastHit <==> hit.Some?) && (hit.Some? ==> f.lastHit[c] == hit.value)
  }

  lemma {:induction false} HitsAreRecorded(roster: set<Chip>, start: int, es: seq<Event>, c: Chip)
    requires RunEnabled(roster, DARK(start), es)
    ensures HitsRecorded(roster, start, es, c)
    decreases |es|
  {
    if es != [] {
      var init, e := es[..|es|-1], es[|es|-1];
      HitsAreRecorded(roster, start, init, c);
      RunKeeps(roster, start, init);
      if e.Arrive? { SlotsFlash(roster, Run(roster, DARK(start), init), e.frame.slots, c); }
    }
  }

  /** Over every run: a chip flashes exactly when a flash-off timeout is pending for it, and then exactly one is,
      due 140 ms after a frame last hit the chip. So a chip stays lit for 140 ms after its last hit, whatever was
      pending when it was hit, and longer only while the browser is late; and one that was never hit stays dark. */
  lemma FlashAgreesWithTimers(roster: set<Chip>, start: int, es: seq<Event>, c: Chip)
    requires RunEnabled(roster, DARK(start), es)
    ensures var f, hit := Run(roster, DARK(start), es), LastHit(roster, start, es, c);
      && (c in f.lit <==> exists t :: t in f.pending && f.pending[t].chip == c)
      && (forall t, u :: t in f.pending && u in f.pending && f.pending[t].chip == f.pending[u].chip ==> t == u)
      && (c in f.lit ==>
        hit.Some? && forall t :: t in f.pending && f.pending[t].chip == c ==> f.pending[t].at == hit.value + FLASH_MS)
      && (hit.Some? && Clock(start, es) < hit.value + FLASH_MS ==> c in f.lit)
  {
    RunKeeps(roster, start, es);
    HitsAreRecorded(roster, start, es, c);
    var f := Run(roster, DARK(start), es);
    if c in f.lit { assert f.pending[f.timers[c]].chip == c; }
  }

  // ----- the key strip

  datatype Press = Press(key: string, board: string)

  function Arrived(keys: seq<KeyEvent>): seq<Press> {
    if keys == [] then []
    else
      var k := keys[|keys|-1];
      Arrived(keys[..|keys|-1]) + if k.down then [Press(k.key, k.board)] else []
  }

  /** What joins the strip: the presses, in order, each with its board; releases do not. */
  lemma {:induction false} ArrivedArePresses(a: seq<KeyEvent>, b: seq<KeyEvent>, k: KeyEvent)
    ensures Arrived(a + b) == Arrived(a) + Arrived(b)
    ensures Arrived([k]) == if k.down then [Press(k.key, k.board)] else []
  {
    assert [k][..0] == [];
    if b == [] {
      assert a + b == a;
    } else {
      var n := |b| - 1;
      ArrivedArePresses(a, b[..n], k);
      assert (a + b)[..|a + b|-1] == a + b[..n] && (a + b)[|a + b|-1] == b[n];
    }
  }

  // `slice(-KEY_HISTORY)`
  function Newest(presses: seq<Press>): seq<Press> {
    if |presses| <= KEY_HISTORY then presses else presses[|presses|-KEY_HISTORY..]
  }

  function StripAfter(strip: seq<Press>, f: Frame): seq<Press> {
    var arrived := Arrived(f.keys);
    if arrived == [] then strip else Newest(strip + arrived)
  }

  function StripAfterAll(frames: seq<Frame>): seq<Press> {
    if frames == [] then [] else StripAfter(StripAfterAll(frames[..|frames|-1]), frames[|frames|-1])
  }

  /** Every press of every frame, in order. */
  function PressesEver(frames: seq<Frame>): seq<Press> {
    if frames == [] then [] else PressesEver(frames[..|frames|-1]) + Arrived(frames[|frames|-1].keys)
  }

  lemma NewestOfNewest(a: seq<Press>, b: seq<Press>)
    ensures Newest(Newest(a) + b) == Newest(a + b)
  {
    if |a| > KEY_HISTORY {
      var n := |a| - KEY_HISTORY;
      assert a == a[..n] + a[n..];
      NewestOfLast(a[..n], a[n..], b);
    }
  }

  // What came before the last twelve never matters again.
  lemma NewestOfLast(older: seq<Press>, kept: seq<Press>, b: seq<Press>)
    requires |kept| == KEY_HISTORY
    ensures Newest(kept + b) == (kept + b)[|b|..]
    ensures Newest(older + kept + b) == (kept + b)[|b|..]
  {
    DropJoin(older + kept, b, |older|);
    DropJoin(older, kept, |older|);
    DropDrop(older + kept + b, |older|, |b|);
  }

  /** Though it only ever keeps twelve, the strip is always the last twelve of all presses ever. */
  lemma {:induction false} StripIsLastTwelve(frames: seq<Frame>)
    ensures StripAfterAll(frames) == Newest(PressesEver(frames))
    ensures var all := PressesEver(frames);
      StripAfterAll(frames) == all[if |all| > 12 then |all| - 12 else 0..]
  {
    if frames != [] {
      var init, f := frames[..|frames|-1], frames[|frames|-1];
      StripIsLastTwelve(init);
      NewestOfNewest(PressesEver(init), Arrived(f.keys));
      if Arrived(f.keys) == [] { assert PressesEver(init) + Arrived(f.keys) == PressesEver(init); }
    }
  }

  // ----- the page

  /** The chips' classes, the flash timers and the strip, as the page updates them. The ghost fields are the timeouts
      the browser holds, and history. */
  class LiveView {
    const roster: set<Chip>
    var held: set<Chip>
    var lit: set<Chip>
    var flashTimers: map<Chip, nat>
    var nextTimer: nat
    var now: int
    var keys: seq<Press>
    ghost var pending: map<nat, Due>
    ghost var lastHit: map<Chip, int>

    ghost function Flashing(): Flashes
      reads this
    {
      Flashes(lit, flashTimers, pending, nextTimer, now, lastHit)
    }

    constructor (roster: set<Chip>, start: int)
      ensures this.roster == roster && held == HoldsAfterAll(roster, []) && keys == StripAfterAll([])
      ensures Flashing() == DARK(start)
    {
      this.roster, held, lit, flashTimers, nextTimer, now, keys := roster, {}, {}, map[], 0, start, [];
      pending, lastHit := map[], map[];
    }

    // Without a slot, every hold goes.
    method ClearHolds(slot: Option<int>)
      modifies this`held
      ensures held == if slot.Some? then ClearedOf(old(held), slot.value) else {}
    {
      var chips := set c | c in held && (slot.None? || c.slot == slot.value);
      while chips != {}
        invariant chips <= held <= old(held)
        invariant forall c :: c in chips ==> slot.None? || c.slot == slot.value
        invariant forall c :: c in old(held) && c !in held ==> slot.None? || c.slot == slot.value
        invariant forall c :: c in held && (slot.None? || c.slot == slot.value) ==> c in chips
        decreases chips
      {
        var chip :| chip in chips;
        held := held - {chip};
        chips := chips - {chip};
      }
    }

    method Flash(chip: Chip)
      modifies this`lit, this`flashTimers, this`nextTimer, this`pending, this`lastHit
      ensures Flashing() == Flashed(old(Flashing()), chip)
    {
      if chip in flashTimers { pending := pending - {flashTimers[chip]}; }
      lit := lit + {chip};
      flashTimers := flashTimers[chip := nextTimer];
      pending, lastHit := pending[nextTimer := Due(chip, now + FLASH_MS)], lastHit[chip := now];
      nextTimer := nextTimer + 1;
    }

    /** The timeout's callback, for the chip it was set for. */
    method FlashOff(chip: Chip, timer: nat)
      requires timer in pending && pending[timer].chip == chip
      modifies this`lit, this`flashTimers, this`pending
      ensures Flashing() == Darkened(old(Flashing()), timer)
    {
      pending := pending - {timer};
      lit := lit - {chip};
      flashTimers := flashTimers - {chip};
    }

    // The `down` loop of `paint`, for one slot.
    method Hold(sf: SlotFrame)
      modifies this`held
      ensures held == old(held) + ChipsOf(roster, sf.slot, sf.down)
    {
      var j := 0;
      while j < |sf.down|
        invariant 0 <= j <= |sf.down|
        invariant held == old(held) + ChipsOf(roster, sf.slot, sf.down[..j])
      {
        var chip := Chip(sf.slot, sf.down[j]);
        assert sf.down[..j+1] == sf.down[..j] + [sf.down[j]];
        if chip in roster { held := held + {chip}; }
        j := j + 1;
      }
      assert sf.down[..|sf.down|] == sf.down;
    }

    // The `hit` loop of `paint`, for one slot.
    method FlashHits(sf: SlotFrame)
      modifies this`lit, this`flashTimers, this`nextTimer, this`pending, this`lastHit
      ensures Flashing() == FlashedAll(roster, old(Flashing()), sf.slot, sf.hit)
    {
      var j := 0;
      while j < |sf.hit|
        invariant 0 <= j <= |sf.hit|
        invariant Flashing() == FlashedAll(roster, old(Flashing()), sf.slot, sf.hit[..j])
      {
        var chip := Chip(sf.slot, sf.hit[j]);
        assert sf.hit[..j+1][..j] == sf.hit[..j];
        if chip in roster { Flash(chip); }
        j := j + 1;
      }
      assert sf.hit[..|sf.hit|] == sf.hit;
    }

    method Paint(f: Frame)
      modifies this`held, this`lit, this`flashTimers, this`nextTimer, this`pending, this`lastHit
      ensures held == HoldsAfter(roster, old(held), f)
      ensures Flashing() == FlashedSlots(roster, old(Flashing()), f.slots)
      ensures FlashInv(old(Flashing())) ==>
        forall c :: c in roster && HitIn(f.slots, c) ==> c in lit && c in flashTimers && Restarted(Flashing(), c)
    {
      if !f.running { ClearHolds(None); }
      ghost var start := held;
      var i := 0;
      while i < |f.slots|
        invariant 0 <= i <= |f.slots|
        invariant held == HoldsAfterSlots(roster, start, f.slots[..i])
        invariant Flashing() == FlashedSlots(roster, old(Flashing()), f.slots[..i])
      {
        assert f.slots[..i+1][..i] == f.slots[..i];
        ClearHolds(Some(f.slots[i].slot));
        Hold(f.slots[i]);
        FlashHits(f.slots[i]);
        i := i + 1;
      }
      assert f.slots[..|f.slots|] == f.slots;
      if FlashInv(old(Flashing())) {
        forall c | c in roster && HitIn(f.slots, c) ensures Restarted(Flashing(), c) {
          SlotsFlash(roster, old(Flashing()), f.slots, c);
        }
      }
    }

    method PushKeys(f: Frame)
      modifies this`keys
      ensures keys == StripAfter(old(keys), f)
    {
      var arrived := Arrived(f.keys);
      if |arrived| == 0 { return; }
      var i := 0;
      while i < |arrived|
        invariant 0 <= i <= |arrived|
        invariant keys == old(keys) + arrived[..i]
      {
        assert arrived[..i+1] == arrived[..i] + [arrived[i]];
        keys := keys + [arrived[i]];
        i := i + 1;
      }
      assert arrived[..|arrived|] == arrived;
      if |keys| > 12 { keys := keys[|keys|-12..]; }
    }

    /** The `frame` listener: after every frame of a history, what is on screen is what the history says. */
    method OnFrame(f: Frame, ghost history: seq<Frame>)
      requires held == HoldsAfterAll(roster, history) && keys == StripAfterAll(history)
      modifies this`keys, this`held, this`lit, this`flashTimers, this`nextTimer, this`pending, this`lastHit
      ensures forall c :: c in held <==> c in roster && c.control in Holding(history + [f], c.slot)
      ensures keys == Newest(PressesEver(history + [f]))
      ensures held == HoldsAfterAll(roster, history + [f]) && keys == StripAfterAll(history + [f])
      ensures Flashing() == Apply(roster, old(Flashing()), Arrive(f))
    {
      PushKeys(f);
      Paint(f);
      assert (history + [f])[..|history|] == history;
      StripIsLastTwelve(history + [f]);
      forall c ensures c in held <==> c in roster && c.control in Holding(history + [f], c.slot) {
        HeldAgreesWithReplay(roster, history + [f], c);
      }
    }
  }
}
