/** The toast stack: timers, hover, dismissal, and undo calls in flight. */
module Toasts {
  import opened Common
  import opened Timing

  const TOAST_MS: int := 8000
  const TOAST_MAX: int := 3
  const LEAST_MS: int := 1200

  /** `undo` names the closure the toast's button runs; `timer` the timeout it has armed. */
  datatype Toast = Toast(id: nat, undo: Option<nat>, busy: bool, remaining: int, deadline: int, timer: Option<nat>)

  /** An undo in flight: which closure, started from which toast. */
  datatype Call = Call(id: nat, closure: nat, toast: nat)

  /** `pending` maps each armed timeout to the toast it will dismiss. `used` and `done` are history: every
      closure handed to the stack, and the ones that have succeeded, in order. */
  datatype State = State(
    toasts: seq<Toast>, seqNo: nat, held: bool, now: int,
    pending: map<nat, nat>, nextTimer: nat,
    calls: set<Call>, nextCall: nat, used: set<nat>, done: seq<nat>)

  function INITIAL(now: int): State { State([], 0, false, now, map[], 0, {}, 0, {}, []) }

  function Find(ts: seq<Toast>, id: nat): (k: int)
    ensures 0 <= k <= |ts|
    ensures k < |ts| ==> ts[k].id == id
    ensures forall j :: 0 <= j < k ==> ts[j].id != id
  {
    if ts == [] then 0 else if ts[0].id == id then 0 else 1 + Find(ts[1..], id)
  }

  lemma FindAt(ts: seq<Toast>, id: nat, k: nat)
    requires k < |ts| && ts[k].id == id
    requires forall j :: 0 <= j < k ==> ts[j].id != id
    ensures Find(ts, id) == k
  {
    if Find(ts, id) > k { assert false; }
  }

  function Without(pending: map<nat, nat>, timer: Option<nat>): map<nat, nat> {
    match timer case None => pending case Some(k) => pending - {k}
  }

  function Set(s: State, i: int, t: Toast): State
    requires 0 <= i < |s.toasts|
  {
    s.(toasts := s.toasts[i := t])
  }

  // `armToast`
  function ArmAt(s: State, i: int): State
    requires 0 <= i < |s.toasts|
  {
    if s.held then s
    else
      var t := s.toasts[i];
      Set(s, i, t.(deadline := s.now + t.remaining, timer := Some(s.nextTimer)))
        .(pending := s.pending[s.nextTimer := t.id], nextTimer := s.nextTimer + 1)
  }

  function Paused(t: Toast, now: int): Toast {
    t.(timer := None, remaining := if t.deadline > 0 then Max(LEAST_MS, t.deadline - now) else t.remaining)
  }

  // `holdToast`
  function HoldAt(s: State, i: int): State
    requires 0 <= i < |s.toasts|
  {
    Set(s, i, Paused(s.toasts[i], s.now)).(pending := Without(s.pending, s.toasts[i].timer))
  }

  function HoldUpTo(s: State, n: nat): (t: State)
    requires n <= |s.toasts|
    ensures |t.toasts| == |s.toasts|
  {
    if n == 0 then s else HoldAt(HoldUpTo(s, n - 1), n - 1)
  }

  function HoldAll(s: State): State {
    if s.held then s else HoldUpTo(s.(held := true), |s.toasts|)
  }

  function ReleaseStep(s: State, i: int): (t: State)
    requires 0 <= i < |s.toasts|
    ensures |t.toasts| == |s.toasts|
  {
    if s.toasts[i].busy then s else ArmAt(s, i)
  }

  function ReleaseUpTo(s: State, n: nat): (t: State)
    requires n <= |s.toasts|
    ensures |t.toasts| == |s.toasts|
  {
    if n == 0 then s else ReleaseStep(ReleaseUpTo(s, n - 1), n - 1)
  }

  function ReleaseAll(s: State): State {
    if !s.held then s else ReleaseUpTo(s.(held := false), |s.toasts|)
  }

  function Popped(s: State): State
    requires s.toasts != []
  {
    var n := |s.toasts| - 1;
    s.(toasts := s.toasts[..n], pending := Without(s.pending, s.toasts[n].timer))
  }

  // The oldest toasts fall off the bottom, their timers with them.
  function Trimmed(s: State): State
    decreases |s.toasts|
  {
    if |s.toasts| <= TOAST_MAX then s else Trimmed(Popped(s))
  }

  function Uses(used: set<nat>, undo: Option<nat>): set<nat> { if undo.Some? then used + {undo.value} else used }

  // A new toast on top, nothing armed yet.
  function Offered(s: State, undo: Option<nat>): State {
    s.(toasts := [Toast(s.seqNo + 1, undo, false, TOAST_MS, 0, None)] + s.toasts,
       seqNo := s.seqNo + 1, used := Uses(s.used, undo))
  }

  function Pushed(s: State, undo: Option<nat>): State {
    var u := Trimmed(Offered(s, undo));
    if u.toasts == [] then u else ArmAt(u, 0)
  }

  function Replaced(s: State, id: nat, undo: Option<nat>): State {
    var k := Find(s.toasts, id);
    if k == |s.toasts| then Pushed(s, undo)
    else
      var h := HoldAt(s, k);
      ArmAt(Set(h, k, h.toasts[k].(undo := undo, busy := false, remaining := TOAST_MS)).(used := Uses(s.used, undo)), k)
  }

  // A toast taken out, its timeout cleared.
  function Removed(s: State, k: int): State
    requires 0 <= k < |s.toasts|
  {
    s.(toasts := s.toasts[..k] + s.toasts[k+1..], pending := Without(s.pending, s.toasts[k].timer))
  }

  function Dismissed(s: State, id: nat): State {
    var k := Find(s.toasts, id);
    if k == |s.toasts| then s else Removed(s, k)
  }

  function Begun(s: State, k: int): State
    requires 0 <= k < |s.toasts| && s.toasts[k].undo.Some?
  {
    var call := Call(s.nextCall, s.toasts[k].undo.value, s.toasts[k].id);
    HoldAt(Set(s, k, s.toasts[k].(busy := true)), k).(calls := s.calls + {call}, nextCall := s.nextCall + 1)
  }

  // `runUndo` up to its await.
  function UndoStarted(s: State, id: nat): State {
    var k := Find(s.toasts, id);
    if k == |s.toasts| || s.toasts[k].undo.None? || s.toasts[k].busy then s
    else Begun(s, k)
  }

  function Answered(s: State, call: Call, ok: bool): State {
    s.(calls := s.calls - {call}, done := if ok then s.done + [call.closure] else s.done)
  }

  // An undo that landed is not offered again.
  function Rested(t: Toast, ok: bool): Toast {
    t.(busy := false, undo := if ok then None else t.undo, remaining := TOAST_MS)
  }

  // `runUndo` after its await.
  function UndoSettled(s: State, call: Call, ok: bool): State {
    var t := Answered(s, call, ok);
    var k := Find(t.toasts, call.toast);
    if k == |t.toasts| then t else ArmAt(Set(t, k, Rested(t.toasts[k], ok)), k)
  }

  datatype Event =
    | Push(undo: Option<nat>)
    | Replace(which: nat, undo: Option<nat>)
    | Hold
    | Release
    | Dismiss(id: nat)
    | Fire(timer: nat)
    | RunUndo(id: nat)
    | Settle(call: Call, ok: bool)
    | Advance(ms: nat)

  // A fired timeout is no longer pending when it dismisses its toast.
  function Fired(s: State, timer: nat): State
    requires timer in s.pending
  {
    Dismissed(s.(pending := s.pending - {timer}), s.pending[timer])
  }

  predicate Enabled(s: State, e: Event) {
    match e
    // every closure is made for the toast that carries it
    case Push(undo) => undo.Some? ==> undo.value !in s.used
    // callers replace only their own progress line, whose undo, if it ever gets one, is not running
    case Replace(id, undo) =>
      (undo.Some? ==> undo.value !in s.used)
      && (Find(s.toasts, id) < |s.toasts| ==> !s.toasts[Find(s.toasts, id)].busy)
    case Fire(timer) => timer in s.pending
    case Settle(call, _) => call in s.calls
    case _ => true
  }

  function Apply(s: State, e: Event): State
    requires Enabled(s, e)
  {
    match e
    case Push(undo) => Pushed(s, undo)
    case Replace(id, undo) => Replaced(s, id, undo)
    case Hold => HoldAll(s)
    case Release => ReleaseAll(s)
    case Dismiss(id) => Dismissed(s, id)
    case Fire(timer) => Fired(s, timer)
    case RunUndo(id) => UndoStarted(s, id)
    case Settle(call, ok) => UndoSettled(s, call, ok)
    case Advance(ms) => s.(now := s.now + ms)
  }

  // ----- the stack and its timers

  ghost predicate Ordered(ts: seq<Toast>, seqNo: nat) {
    (forall i :: 0 <= i < |ts| ==> ts[i].id <= seqNo)
    && forall i, j :: 0 <= i < j < |ts| ==> ts[i].id > ts[j].id
  }

  ghost predicate ArmedFor(s: State, i: int)
    requires 0 <= i < |s.toasts| && s.toasts[i].timer.Some?
  {
    var k := s.toasts[i].timer.value;
    k in s.pending && s.pending[k] == s.toasts[i].id
  }

  ghost predicate Carried(ts: seq<Toast>, timer: nat) {
    exists i :: 0 <= i < |ts| && ts[i].timer == Some(timer)
  }

  ghost predicate Timers(s: State) {
    (forall i :: 0 <= i < |s.toasts| && s.toasts[i].timer.Some? ==> ArmedFor(s, i))
    && forall k :: k in s.pending ==> k < s.nextTimer && Carried(s.toasts, k)
  }

  ghost predicate InTime(t: Toast, now: int) {
    LEAST_MS <= t.remaining <= TOAST_MS && t.deadline <= now + TOAST_MS
  }

  ghost predicate Core(s: State) {
    s.now > 0 && Ordered(s.toasts, s.seqNo) && Timers(s)
    && forall i :: 0 <= i < |s.toasts| ==> InTime(s.toasts[i], s.now)
  }

  /** While the stack is held nothing is armed; otherwise exactly the toasts that are not busy are. */
  ghost predicate ArmedRight(s: State) {
    forall i :: 0 <= i < |s.toasts| ==> (s.toasts[i].timer.Some? <==> !s.held && !s.toasts[i].busy)
  }

  ghost predicate StackInv(s: State) {
    Core(s) && ArmedRight(s) && |s.toasts| <= TOAST_MAX
  }

  ghost predicate SameFace(t: Toast, u: Toast) {
    t.id == u.id && t.undo == u.undo && t.busy == u.busy
  }

  // Two toasts never share a timer.
  lemma OwnTimer(s: State, i: int, j: int)
    requires Core(s) && 0 <= i < |s.toasts| && 0 <= j < |s.toasts|
    requires s.toasts[i].timer.Some? && s.toasts[i].timer == s.toasts[j].timer
    ensures i == j
  {}

  lemma HoldAtKeeps(s: State, i: int)
    requires Core(s) && 0 <= i < |s.toasts|
    ensures Core(HoldAt(s, i))
  {
    var t := HoldAt(s, i);
    forall k | k in t.pending ensures Carried(t.toasts, k) {
      var j :| 0 <= j < |s.toasts| && s.toasts[j].timer == Some(k);
      assert t.toasts[j].timer == Some(k);
    }
    forall j | 0 <= j < |t.toasts| && t.toasts[j].timer.Some? ensures ArmedFor(t, j) {
      if j != i { assert ArmedFor(s, j); }
      if t.toasts[j].timer == s.toasts[i].timer { OwnTimer(s, i, j); }
    }
  }

  lemma ArmAtKeeps(s: State, i: int)
    requires Core(s) && 0 <= i < |s.toasts| && s.toasts[i].timer.None?
    ensures Core(ArmAt(s, i))
  {
    var t := ArmAt(s, i);
    if !s.held {
      forall k | k in t.pending ensures Carried(t.toasts, k) {
        if k == s.nextTimer {
          assert t.toasts[i].timer == Some(k);
        } else {
          var j :| 0 <= j < |s.toasts| && s.toasts[j].timer == Some(k);
          assert t.toasts[j].timer == Some(k);
        }
      }
      forall j | 0 <= j < |t.toasts| && t.toasts[j].timer.Some? ensures ArmedFor(t, j) {
        if j != i { assert ArmedFor(s, j); }
      }
    }
  }

  // Changing what a toast shows, not its identity or timer.
  lemma SetKeeps(s: State, i: int, t: Toast)
    requires Core(s) && 0 <= i < |s.toasts|
    requires t.id == s.toasts[i].id && t.timer == s.toasts[i].timer && InTime(t, s.now)
    ensures Core(Set(s, i, t))
  {
    var u := Set(s, i, t);
    forall k | k in u.pending ensures Carried(u.toasts, k) {
      var j :| 0 <= j < |s.toasts| && s.toasts[j].timer == Some(k);
      assert u.toasts[j].timer == Some(k);
    }
  }

  lemma RemovedCarried(s: State, k: int, timer: nat)
    requires Core(s) && 0 <= k < |s.toasts| && timer in Removed(s, k).pending
    ensures Carried(Removed(s, k).toasts, timer)
  {
    var j :| 0 <= j < |s.toasts| && s.toasts[j].timer == Some(timer);
    assert ArmedFor(s, j) && j != k;
    assert Removed(s, k).toasts[if j < k then j else j - 1].timer == Some(timer);
  }

  lemma RemovedArmed(s: State, k: int, j: int)
    requires Core(s) && 0 <= k < |s.toasts| && 0 <= j < |s.toasts| - 1
    requires Removed(s, k).toasts[j].timer.Some?
    ensures ArmedFor(Removed(s, k), j)
  {
    var was := if j < k then j else j + 1;
    assert Removed(s, k).toasts[j] == s.toasts[was] && ArmedFor(s, was);
    if s.toasts[was].timer == s.toasts[k].timer { OwnTimer(s, was, k); }
  }

  lemma RemovedTimers(s: State, k: int)
    requires Core(s) && 0 <= k < |s.toasts|
    ensures Timers(Removed(s, k))
  {
    var t := Removed(s, k);
    forall timer | timer in t.pending ensures Carried(t.toasts, timer) { RemovedCarried(s, k, timer); }
    forall j | 0 <= j < |t.toasts| && t.toasts[j].timer.Some? ensures ArmedFor(t, j) { RemovedArmed(s, k, j); }
  }

  // Taking a toast out, with its timer.
  lemma RemoveKeeps(s: State, k: int)
    requires Core(s) && 0 <= k < |s.toasts|
    ensures Core(Removed(s, k))
    ensures forall j :: 0 <= j < |s.toasts| - 1 ==> Removed(s, k).toasts[j] == s.toasts[if j < k then j else j + 1]
  {
    RemovedTimers(s, k);
  }

  lemma {:induction false} HoldUpToKeeps(s: State, n: nat)
    requires Core(s) && n <= |s.toasts|
    ensures var t := HoldUpTo(s, n);
      && Core(t) && t.held == s.held && t.now == s.now
      && (forall i :: 0 <= i < n ==> t.toasts[i] == Paused(s.toasts[i], s.now))
      && (forall i :: n <= i < |s.toasts| ==> t.toasts[i] == s.toasts[i])
      && t == s.(toasts := t.toasts, pending := t.pending)
  {
    if n > 0 {
      HoldUpToKeeps(s, n - 1);
      HoldAtKeeps(HoldUpTo(s, n - 1), n - 1);
    }
  }

  // What releasing the stack does to one toast.
  ghost predicate Rearmed(t: Toast, u: Toast, now: int) {
    SameFace(t, u) && t.remaining == u.remaining && (t.timer.Some? <==> !t.busy)
    && (!t.busy ==> t.deadline == now + u.remaining)
  }

  ghost predicate ReleasedTo(s: State, t: State, n: nat) {
    |t.toasts| == |s.toasts| && t == s.(toasts := t.toasts, pending := t.pending, nextTimer := t.nextTimer)
    && (forall i :: 0 <= i < n && i < |s.toasts| ==> Rearmed(t.toasts[i], s.toasts[i], s.now))
    && forall i :: n <= i < |s.toasts| ==> t.toasts[i] == s.toasts[i]
  }

  ghost predicate Unarmed(s: State) {
    forall i :: 0 <= i < |s.toasts| ==> s.toasts[i].timer.None?
  }

  lemma ReleaseOne(s: State, t: State, n: nat)
    requires ReleasedTo(s, t, n) && !s.held && n < |s.toasts| && Unarmed(s)
    ensures ReleasedTo(s, ReleaseStep(t, n), n + 1)
  {}

  lemma {:induction false} ReleaseUpToIs(s: State, n: nat)
    requires n <= |s.toasts| && !s.held && Unarmed(s)
    ensures ReleasedTo(s, ReleaseUpTo(s, n), n)
  {
    if n > 0 {
      ReleaseUpToIs(s, n - 1);
      ReleaseOne(s, ReleaseUpTo(s, n - 1), n - 1);
    }
  }

  lemma {:induction false} ReleaseUpToKeeps(s: State, n: nat)
    requires Core(s) && n <= |s.toasts| && !s.held && Unarmed(s)
    ensures Core(ReleaseUpTo(s, n)) && ReleasedTo(s, ReleaseUpTo(s, n), n)
  {
    ReleaseUpToIs(s, n);
    if n > 0 {
      ReleaseUpToKeeps(s, n - 1);
      var t := ReleaseUpTo(s, n - 1);
      if !t.toasts[n-1].busy { ArmAtKeeps(t, n - 1); }
    }
  }

  lemma PoppedKeeps(s: State)
    requires Core(s) && s.toasts != []
    ensures Core(Popped(s))
  {
    var n := |s.toasts| - 1;
    RemoveKeeps(s, n);
    assert Removed(s, n) == Popped(s);
  }

  lemma {:induction false} TrimmedKeeps(s: State)
    requires Core(s)
    ensures Core(Trimmed(s)) && Trimmed(s).toasts <= s.toasts
    ensures |Trimmed(s).toasts| == Min(|s.toasts|, TOAST_MAX)
    ensures Trimmed(s) == s.(toasts := Trimmed(s).toasts, pending := Trimmed(s).pending)
    decreases |s.toasts|
  {
    if |s.toasts| > TOAST_MAX {
      PoppedKeeps(s);
      TrimmedKeeps(Popped(s));
    }
  }

  lemma PushedCore(s: State, undo: Option<nat>)
    requires Core(s)
    ensures Core(Offered(s, undo))
  {
    var u := Offered(s, undo);
    forall k | k in u.pending ensures Carried(u.toasts, k) {
      var j :| 0 <= j < |s.toasts| && s.toasts[j].timer == Some(k);
      assert u.toasts[j + 1].timer == Some(k);
    }
  }

  lemma PushedKeeps(s: State, undo: Option<nat>)
    requires StackInv(s)
    ensures StackInv(Pushed(s, undo))
  {
    var u := Offered(s, undo);
    PushedCore(s, undo);
    TrimmedKeeps(u);
    ArmAtKeeps(Trimmed(u), 0);
  }

  lemma DismissedKeeps(s: State, id: nat)
    requires StackInv(s)
    ensures StackInv(Dismissed(s, id))
  {
    var k := Find(s.toasts, id);
    if k < |s.toasts| { RemoveKeeps(s, k); }
  }

  lemma RearmedKeeps(s: State, k: int, t: Toast)
    requires Core(s) && |s.toasts| <= TOAST_MAX && 0 <= k < |s.toasts|
    requires forall i :: 0 <= i < |s.toasts| && i != k ==> (s.toasts[i].timer.Some? <==> !s.held && !s.toasts[i].busy)
    requires s.toasts[k].timer.None? && t.timer.None? && t.id == s.toasts[k].id && !t.busy && InTime(t, s.now)
    ensures StackInv(ArmAt(Set(s, k, t), k))
  {
    SetKeeps(s, k, t);
    ArmAtKeeps(Set(s, k, t), k);
  }

  // A timeout that fires dismisses the toast it was armed for, as the user would.
  lemma FiredIsDismissed(s: State, timer: nat)
    requires Core(s) && timer in s.pending
    ensures Fired(s, timer) == Dismissed(s, s.pending[timer])
    ensures Find(s.toasts, s.pending[timer]) < |s.toasts|
  {
    var i :| 0 <= i < |s.toasts| && s.toasts[i].timer == Some(timer);
    assert ArmedFor(s, i);
    assert Find(s.toasts, s.pending[timer]) == i;
    assert s.pending - {timer} - {timer} == s.pending - {timer};
  }

  // ----- undo calls

  ghost predicate CallOk(s: State, c: Call) {
    c.closure in s.used && c.closure !in s.done && c.toast <= s.seqNo
    && forall i :: 0 <= i < |s.toasts| ==>
      (s.toasts[i].id == c.toast ==> s.toasts[i].busy)
      && (s.toasts[i].id == c.toast <==> s.toasts[i].undo == Some(c.closure))
  }

  ghost predicate InFlight(s: State, toast: nat) {
    exists c :: c in s.calls && c.toast == toast
  }

  ghost predicate ClosuresApart(ts: seq<Toast>) {
    forall i, j :: 0 <= i < j < |ts| && ts[i].undo.Some? ==> ts[i].undo != ts[j].undo
  }

  ghost predicate UndoOk(s: State, t: Toast) {
    (t.busy ==> InFlight(s, t.id))
    && (t.undo.Some? ==> t.undo.value in s.used && t.undo.value !in s.done)
  }

  ghost predicate OneCallEach(calls: set<Call>) {
    forall c, d :: c in calls && d in calls && c.closure == d.closure ==> c == d
  }

  ghost predicate NoneTwice(done: seq<nat>) {
    forall i, j :: 0 <= i < j < |done| ==> done[i] != done[j]
  }

  /** A toast is busy exactly while its undo is in flight, no closure is in flight twice, and a closure that
      succeeded is on no toast and in no call. */
  ghost predicate CallInv(s: State) {
    (forall c :: c in s.calls ==> c.id < s.nextCall && CallOk(s, c))
    && (forall i :: 0 <= i < |s.toasts| ==> UndoOk(s, s.toasts[i]))
    && ClosuresApart(s.toasts) && OneCallEach(s.calls) && NoneTwice(s.done)
    && forall i :: 0 <= i < |s.done| ==> s.done[i] in s.used
  }

  // Every toast of `t` shows what one of `s`, further down or at the same place, shows.
  ghost predicate Thinned(s: State, t: State, from: seq<int>) {
    |from| == |t.toasts|
    && (forall i :: 0 <= i < |from| ==> 0 <= from[i] < |s.toasts| && SameFace(t.toasts[i], s.toasts[from[i]]))
    && (forall i, j :: 0 <= i < j < |from| ==> from[i] < from[j])
    && t.calls == s.calls && t.nextCall == s.nextCall && t.used == s.used && t.done == s.done && t.seqNo == s.seqNo
  }

  lemma ThinnedKeeps(s: State, t: State, from: seq<int>)
    requires CallInv(s) && Thinned(s, t, from)
    ensures CallInv(t)
  {
    forall c | c in t.calls ensures CallOk(t, c) { assert CallOk(s, c); }
    forall i | 0 <= i < |t.toasts| ensures UndoOk(t, t.toasts[i]) {
      assert UndoOk(s, s.toasts[from[i]]);
      assert InFlight(s, t.toasts[i].id) == InFlight(t, t.toasts[i].id);
    }
  }

  lemma SameFacesKeep(s: State, t: State)
    requires CallInv(s)
    requires |t.toasts| == |s.toasts| && forall i :: 0 <= i < |s.toasts| ==> SameFace(t.toasts[i], s.toasts[i])
    requires t.calls == s.calls && t.nextCall == s.nextCall
    requires t.used == s.used && t.done == s.done && t.seqNo == s.seqNo
    ensures CallInv(t)
  {
    ThinnedKeeps(s, t, seq(|s.toasts|, i => i));
  }

  lemma DismissedCalls(s: State, id: nat)
    requires CallInv(s)
    ensures CallInv(Dismissed(s, id))
  {
    var k := Find(s.toasts, id);
    if k < |s.toasts| {
      ThinnedKeeps(s, Dismissed(s, id), seq(|s.toasts| - 1, i requires 0 <= i => if i < k then i else i + 1));
    }
  }

  // A new toast carries a closure nobody has used yet, or none.
  lemma NewFaceKeeps(s: State, undo: Option<nat>)
    requires CallInv(s) && Core(s) && (undo.Some? ==> undo.value !in s.used)
    ensures CallInv(Offered(s, undo))
  {
    var u := Offered(s, undo);
    forall c | c in u.calls ensures CallOk(u, c) { assert CallOk(s, c); }
    forall i | 0 <= i < |u.toasts| ensures UndoOk(u, u.toasts[i]) {
      if i > 0 {
        assert UndoOk(s, s.toasts[i-1]);
        assert InFlight(s, u.toasts[i].id) == InFlight(u, u.toasts[i].id);
      }
    }
  }

  lemma TrimmedCalls(s: State)
    requires CallInv(s) && Core(s)
    ensures CallInv(Trimmed(s))
  {
    TrimmedKeeps(s);
    ThinnedKeeps(s, Trimmed(s), seq(|Trimmed(s).toasts|, i => i));
  }

  lemma PushedCalls(s: State, undo: Option<nat>)
    requires CallInv(s) && StackInv(s) && (undo.Some? ==> undo.value !in s.used)
    ensures CallInv(Pushed(s, undo))
  {
    var u := Offered(s, undo);
    NewFaceKeeps(s, undo);
    PushedCore(s, undo);
    TrimmedCalls(u);
    SameFacesKeep(Trimmed(u), Pushed(s, undo));
  }

  // Giving a toast that is not busy a new undo, or none.
  lemma RefacedKeeps(s: State, k: int, t: Toast)
    requires CallInv(s) && 0 <= k < |s.toasts| && !s.toasts[k].busy
    requires t.id == s.toasts[k].id && !t.busy && (t.undo.Some? ==> t.undo.value !in s.used)
    ensures CallInv(Set(s, k, t).(used := Uses(s.used, t.undo)))
  {
    var u := Set(s, k, t).(used := Uses(s.used, t.undo));
    forall c | c in u.calls ensures CallOk(u, c) { assert CallOk(s, c); }
    forall i | 0 <= i < |u.toasts| ensures UndoOk(u, u.toasts[i]) {
      assert UndoOk(s, s.toasts[i]);
      assert InFlight(s, u.toasts[i].id) == InFlight(u, u.toasts[i].id);
    }
  }

  lemma BegunCall(s: State, k: int)
    requires CallInv(s) && StackInv(s) && 0 <= k < |s.toasts| && s.toasts[k].undo.Some? && !s.toasts[k].busy
    ensures forall c :: c in s.calls ==> c.closure != s.toasts[k].undo.value && c.toast != s.toasts[k].id
    ensures forall c :: c in Begun(s, k).calls ==> c.id < s.nextCall + 1 && CallOk(Begun(s, k), c)
  {
    var t := Begun(s, k);
    var call := Call(s.nextCall, s.toasts[k].undo.value, s.toasts[k].id);
    forall c | c in s.calls ensures c.closure != call.closure && c.toast != call.toast { assert CallOk(s, c); }
    forall c | c in t.calls ensures CallOk(t, c) {
      if c == call { assert UndoOk(s, s.toasts[k]); } else { assert CallOk(s, c); }
    }
  }

  lemma BegunUndos(s: State, k: int)
    requires CallInv(s) && StackInv(s) && 0 <= k < |s.toasts| && s.toasts[k].undo.Some? && !s.toasts[k].busy
    ensures forall i :: 0 <= i < |s.toasts| ==> UndoOk(Begun(s, k), Begun(s, k).toasts[i])
  {
    var t := Begun(s, k);
    var call := Call(s.nextCall, s.toasts[k].undo.value, s.toasts[k].id);
    forall i | 0 <= i < |t.toasts| ensures UndoOk(t, t.toasts[i]) {
      assert UndoOk(s, s.toasts[i]);
      if i == k { assert call in t.calls && call.toast == t.toasts[i].id; }
      else if t.toasts[i].busy {
        var c :| c in s.calls && c.toast == s.toasts[i].id;
        assert c in t.calls;
      }
    }
  }

  lemma BegunCalls(s: State, k: int)
    requires CallInv(s) && StackInv(s) && 0 <= k < |s.toasts| && s.toasts[k].undo.Some? && !s.toasts[k].busy
    ensures CallInv(Begun(s, k))
  {
    BegunCall(s, k);
    BegunUndos(s, k);
  }

  lemma StartedCalls(s: State, id: nat)
    requires CallInv(s) && StackInv(s)
    ensures CallInv(UndoStarted(s, id))
  {
    var k := Find(s.toasts, id);
    if k < |s.toasts| && s.toasts[k].undo.Some? && !s.toasts[k].busy { BegunCalls(s, k); }
  }

  // What an undo that came back does to the toasts: to its own toast only, if it is still there.
  lemma SettledToasts(s: State, call: Call, ok: bool)
    requires CallInv(s) && StackInv(s) && call in s.calls
    ensures var t := UndoSettled(s, call, ok);
      && |t.toasts| == |s.toasts| && t.seqNo == s.seqNo && t.used == s.used && t.nextCall == s.nextCall
      && t.calls == s.calls - {call} && t.done == (if ok then s.done + [call.closure] else s.done)
      && forall i :: 0 <= i < |s.toasts| ==>
        SameFace(t.toasts[i], if s.toasts[i].id != call.toast then s.toasts[i]
                              else s.toasts[i].(busy := false, undo := if ok then None else s.toasts[i].undo))
  {}

  lemma SettledCallOk(s: State, call: Call, ok: bool, c: Call)
    requires CallInv(s) && StackInv(s) && call in s.calls && c in s.calls && c != call
    ensures CallOk(UndoSettled(s, call, ok), c)
  {
    SettledToasts(s, call, ok);
    assert CallOk(s, call) && CallOk(s, c) && c.closure != call.closure;
  }

  lemma SettledUndoOk(s: State, call: Call, ok: bool, i: nat)
    requires CallInv(s) && StackInv(s) && call in s.calls && i < |s.toasts|
    ensures |UndoSettled(s, call, ok).toasts| == |s.toasts|
    ensures UndoOk(UndoSettled(s, call, ok), UndoSettled(s, call, ok).toasts[i])
  {
    SettledToasts(s, call, ok);
    var t := UndoSettled(s, call, ok);
    assert CallOk(s, call) && UndoOk(s, s.toasts[i]);
    if t.toasts[i].busy {
      var c :| c in s.calls && c.toast == s.toasts[i].id;
      assert c in t.calls;
    }
  }

  lemma SettledCalls(s: State, call: Call, ok: bool)
    requires CallInv(s) && StackInv(s) && call in s.calls
    ensures CallInv(UndoSettled(s, call, ok))
  {
    var t := UndoSettled(s, call, ok);
    SettledToasts(s, call, ok);
    SettledDone(s, call, ok);
    forall c | c in t.calls ensures c.id < t.nextCall && CallOk(t, c) { SettledCallOk(s, call, ok, c); }
    forall i | 0 <= i < |t.toasts| ensures UndoOk(t, t.toasts[i]) { SettledUndoOk(s, call, ok, i); }
  }

  lemma SettledDone(s: State, call: Call, ok: bool)
    requires CallInv(s) && StackInv(s) && call in s.calls
    ensures var t := UndoSettled(s, call, ok);
      && ClosuresApart(t.toasts) && OneCallEach(t.calls) && NoneTwice(t.done)
      && forall i :: 0 <= i < |t.done| ==> t.done[i] in t.used
  {
    SettledToasts(s, call, ok);
    assert CallOk(s, call);
  }

  lemma ReplacedCalls(s: State, id: nat, undo: Option<nat>)
    requires CallInv(s) && StackInv(s) && Enabled(s, Replace(id, undo))
    ensures CallInv(Replaced(s, id, undo))
  {
    var k := Find(s.toasts, id);
    if k == |s.toasts| { PushedCalls(s, undo); }
    else {
      var t := s.toasts[k].(undo := undo, busy := false);
      RefacedKeeps(s, k, t);
      SameFacesKeep(Set(s, k, t).(used := Uses(s.used, undo)), Replaced(s, id, undo));
    }
  }

  lemma HoldingCalls(s: State)
    requires CallInv(s) && StackInv(s)
    ensures CallInv(HoldAll(s)) && CallInv(ReleaseAll(s))
  {
    if s.held {
      ReleaseUpToKeeps(s.(held := false), |s.toasts|);
      SameFacesKeep(s, ReleaseAll(s));
    } else {
      HoldUpToKeeps(s.(held := true), |s.toasts|);
      SameFacesKeep(s, HoldAll(s));
    }
  }

  lemma CallsKept(s: State, e: Event)
    requires CallInv(s) && StackInv(s) && Enabled(s, e)
    ensures CallInv(Apply(s, e))
  {
    match e
    case Push(undo) => PushedCalls(s, undo);
    case Replace(id, undo) => ReplacedCalls(s, id, undo);
    case Hold => HoldingCalls(s);
    case Release => HoldingCalls(s);
    case Dismiss(id) => DismissedCalls(s, id);
    case Fire(timer) =>
      FiredIsDismissed(s, timer);
      DismissedCalls(s, s.pending[timer]);
    case RunUndo(id) => StartedCalls(s, id);
    case Settle(call, ok) => SettledCalls(s, call, ok);
    case Advance(ms) => SameFacesKeep(s, s.(now := s.now + ms));
  }

  lemma SettledKeeps(s: State, call: Call, ok: bool)
    requires StackInv(s) && CallInv(s) && call in s.calls
    ensures StackInv(UndoSettled(s, call, ok))
  {
    var t := Answered(s, call, ok);
    var k := Find(t.toasts, call.toast);
    if k < |t.toasts| {
      assert CallOk(s, call);
      RearmedKeeps(t, k, Rested(t.toasts[k], ok));
    }
  }

  lemma ReplacedKeeps(s: State, id: nat, undo: Option<nat>)
    requires StackInv(s)
    ensures StackInv(Replaced(s, id, undo))
  {
    var k := Find(s.toasts, id);
    if k == |s.toasts| { PushedKeeps(s, undo); }
    else {
      HoldAtKeeps(s, k);
      var h := HoldAt(s, k);
      var shown := h.toasts[k].(undo := undo, busy := false, remaining := TOAST_MS);
      RearmedKeeps(h.(used := Uses(s.used, undo)), k, shown);
      assert ArmAt(Set(h.(used := Uses(s.used, undo)), k, shown), k) == Replaced(s, id, undo);
    }
  }

  lemma HoldAllKeeps(s: State)
    requires StackInv(s)
    ensures StackInv(HoldAll(s))
  {
    if !s.held { HoldUpToKeeps(s.(held := true), |s.toasts|); }
  }

  lemma ReleaseAllKeeps(s: State)
    requires StackInv(s)
    ensures StackInv(ReleaseAll(s))
  {
    if s.held { ReleaseUpToKeeps(s.(held := false), |s.toasts|); }
  }

  lemma StartedKeeps(s: State, id: nat)
    requires StackInv(s)
    ensures StackInv(UndoStarted(s, id))
  {
    var k := Find(s.toasts, id);
    if k < |s.toasts| {
      SetKeeps(s, k, s.toasts[k].(busy := true));
      HoldAtKeeps(Set(s, k, s.toasts[k].(busy := true)), k);
    }
  }

  /** The stack invariant survives every event. */
  lemma StackKept(s: State, e: Event)
    requires StackInv(s) && CallInv(s) && Enabled(s, e)
    ensures StackInv(Apply(s, e))
  {
    match e
    case Push(undo) => PushedKeeps(s, undo);
    case Replace(id, undo) => ReplacedKeeps(s, id, undo);
    case Hold => HoldAllKeeps(s);
    case Release => ReleaseAllKeeps(s);
    case Dismiss(id) => DismissedKeeps(s, id);
    case Fire(timer) =>
      FiredIsDismissed(s, timer);
      DismissedKeeps(s, s.pending[timer]);
    case RunUndo(id) => StartedKeeps(s, id);
    case Settle(call, ok) => SettledKeeps(s, call, ok);
    case Advance(_) =>
  }

  // ----- whole runs

  function Run(s: State, es: seq<Event>): State
    requires RunEnabled(s, es)
    decreases |es|, 1
  {
    if es == [] then s else Apply(Run(s, es[..|es|-1]), es[|es|-1])
  }

  predicate RunEnabled(s: State, es: seq<Event>)
    decreases |es|, 0
  {
    es == [] || (RunEnabled(s, es[..|es|-1]) && Enabled(Run(s, es[..|es|-1]), es[|es|-1]))
  }

  lemma {:induction false} RunKeeps(s: State, es: seq<Event>)
    requires StackInv(s) && CallInv(s) && RunEnabled(s, es)
    ensures StackInv(Run(s, es)) && CallInv(Run(s, es))
    decreases |es|
  {
    if es != [] {
      RunKeeps(s, es[..|es|-1]);
      StackKept(Run(s, es[..|es|-1]), es[|es|-1]);
      CallsKept(Run(s, es[..|es|-1]), es[|es|-1]);
    }
  }

  ghost predicate Reachable(s: State) {
    exists start, es :: start > 0 && RunEnabled(INITIAL(start), es) && s == Run(INITIAL(start), es)
  }

  lemma ReachableKeeps(s: State)
    requires Reachable(s)
    ensures StackInv(s) && CallInv(s)
  {
    var start, es :| start > 0 && RunEnabled(INITIAL(start), es) && s == Run(INITIAL(start), es);
    RunKeeps(INITIAL(start), es);
  }

  /** Whatever happened: at most three toasts, newest first; a timeout is armed for exactly the toasts that are
      not busy, and for none while a hand is on the stack; no timeout outlives its toast; and a toast always has
      between 1.2 and 8 seconds left. */
  lemma StackIsSound(s: State)
    requires Reachable(s)
    ensures |s.toasts| <= TOAST_MAX
    ensures forall i, j :: 0 <= i < j < |s.toasts| ==> s.toasts[i].id > s.toasts[j].id
    ensures forall t :: t in s.toasts ==> LEAST_MS <= t.remaining <= TOAST_MS
    ensures forall t :: t in s.toasts ==> (t.timer.Some? <==> !s.held && !t.busy)
    ensures forall k :: k in s.pending ==> exists t :: t in s.toasts && t.timer == Some(k) && s.pending[k] == t.id
    ensures forall t :: t in s.toasts && t.timer.Some? ==> t.timer.value in s.pending
  {
    ReachableKeeps(s);
    forall i | 0 <= i < |s.toasts| && s.toasts[i].timer.Some? ensures s.toasts[i].timer.value in s.pending {
      assert ArmedFor(s, i);
    }
    forall k | k in s.pending ensures exists t :: t in s.toasts && t.timer == Some(k) && s.pending[k] == t.id {
      var i :| 0 <= i < |s.toasts| && s.toasts[i].timer == Some(k);
      assert ArmedFor(s, i) && s.toasts[i] in s.toasts;
    }
  }

  /** Whatever happened: an undo is in flight at most once, it never runs again after it succeeded, and a toast
      still on the stack is busy for exactly as long as its own undo is in flight. */
  lemma UndoRunsOnce(s: State)
    requires Reachable(s)
    ensures forall c, d :: c in s.calls && d in s.calls && c.closure == d.closure ==> c == d
    ensures NoneTwice(s.done)
    ensures forall c :: c in s.calls ==> c.closure !in s.done
    ensures forall t :: t in s.toasts && t.undo.Some? ==> t.undo.value !in s.done
    ensures forall t :: t in s.toasts ==>
      (t.busy <==> exists c :: c in s.calls && c.toast == t.id && t.undo == Some(c.closure))
  {
    ReachableKeeps(s);
    forall c | c in s.calls ensures c.closure !in s.done { assert CallOk(s, c); }
    forall i | 0 <= i < |s.toasts|
      ensures s.toasts[i].busy <==>
        exists c :: c in s.calls && c.toast == s.toasts[i].id && s.toasts[i].undo == Some(c.closure)
    {
      assert UndoOk(s, s.toasts[i]);
      if s.toasts[i].busy {
        var c :| c in s.calls && c.toast == s.toasts[i].id;
        assert CallOk(s, c);
      }
      forall c | c in s.calls ensures CallOk(s, c) {}
    }
  }

  /** Holding the stack stops the clock: however long the hand stays, an armed toast is left with the time it
      had, and never less than 1.2 s. */
  lemma HoldingStopsTheClock(s: State, ms: nat, i: nat)
    requires Reachable(s) && !s.held && i < |s.toasts| && !s.toasts[i].busy
    ensures var t := ReleaseAll(Apply(HoldAll(s), Advance(ms)));
      && !t.held && t.now == s.now + ms && |t.toasts| == |s.toasts|
      && t.toasts[i].id == s.toasts[i].id && t.toasts[i].timer.Some?
      && t.toasts[i].deadline - t.now == Paused(s.toasts[i], s.now).remaining
  {
    ReachableKeeps(s);
    HoldAllPauses(s, i);
    HeldThenReleased(s, HoldAll(s), ms, i);
  }

  lemma HoldAllPauses(s: State, i: nat)
    requires StackInv(s) && !s.held && i < |s.toasts|
    ensures var h := HoldAll(s);
      StackInv(h) && h.held && h.now == s.now && |h.toasts| == |s.toasts| && h.toasts[i] == Paused(s.toasts[i], s.now)
  {
    HoldAllKeeps(s);
    HoldUpToKeeps(s.(held := true), |s.toasts|);
  }

  lemma HeldThenReleased(s: State, h: State, ms: nat, i: nat)
    requires StackInv(h) && h.held && i < |h.toasts| == |s.toasts| && !h.toasts[i].busy && h.now == s.now
    requires h.toasts[i] == Paused(s.toasts[i], s.now)
    ensures var t := ReleaseAll(h.(now := h.now + ms));
      && !t.held && t.now == h.now + ms && |t.toasts| == |h.toasts| && Rearmed(t.toasts[i], h.toasts[i], t.now)
  {
    var later := h.(now := h.now + ms, held := false);
    assert Core(later);
    ReleaseUpToKeeps(later, |h.toasts|);
  }

  // Running an undo and hearing that it failed changes what the toast counts down from, nothing else.
  lemma FailedUndo(s: State, k: nat)
    requires StackInv(s) && CallInv(s) && k < |s.toasts| && s.toasts[k].undo.Some? && !s.toasts[k].busy
    ensures var id := s.toasts[k].id;
      var first := Call(s.nextCall, s.toasts[k].undo.value, id);
      var t := UndoSettled(UndoStarted(s, id), first, false);
      && first in UndoStarted(s, id).calls
      && t.calls == s.calls && t.done == s.done && t.nextCall == s.nextCall + 1
      && |t.toasts| == |s.toasts| && forall i :: 0 <= i < |s.toasts| ==> SameFace(t.toasts[i], s.toasts[i])
  {
    StartedIsBegun(s, k);
    assert Call(s.nextCall, s.toasts[k].undo.value, s.toasts[k].id) !in s.calls;
    FailureForgotten(s, Begun(s, k), k, Call(s.nextCall, s.toasts[k].undo.value, s.toasts[k].id));
  }

  lemma StartedIsBegun(s: State, k: nat)
    requires StackInv(s) && k < |s.toasts| && s.toasts[k].undo.Some? && !s.toasts[k].busy
    ensures UndoStarted(s, s.toasts[k].id) == Begun(s, k)
  {
    FindAt(s.toasts, s.toasts[k].id, k);
  }

  // What is left when the call that was begun on toast k fails.
  lemma FailureForgotten(s: State, t: State, k: nat, call: Call)
    requires Ordered(s.toasts, s.seqNo) && k < |s.toasts| && s.toasts[k].undo.Some? && !s.toasts[k].busy
    requires call !in s.calls && t == Begun(s, k) && call == Call(s.nextCall, s.toasts[k].undo.value, s.toasts[k].id)
    ensures var u := UndoSettled(t, call, false);
      && u.calls == s.calls && u.done == s.done && u.nextCall == s.nextCall + 1
      && |u.toasts| == |s.toasts| && forall i :: 0 <= i < |s.toasts| ==> SameFace(u.toasts[i], s.toasts[i])
  {
    assert t.calls - {call} == s.calls;
    FindAt(t.toasts, call.toast, k);
  }

  /** An undo that fails leaves its toast offering the same undo, and running it again calls it again. */
  lemma FailedUndoCanBeRetried(s: State, k: nat)
    requires Reachable(s) && k < |s.toasts| && s.toasts[k].undo.Some? && !s.toasts[k].busy
    ensures var id, closure := s.toasts[k].id, s.toasts[k].undo.value;
      var first := Call(s.nextCall, closure, id);
      && first in UndoStarted(s, id).calls
      && var t := UndoSettled(UndoStarted(s, id), first, false);
      t.calls == s.calls && Call(s.nextCall + 1, closure, id) in UndoStarted(t, id).calls
  {
    ReachableKeeps(s);
    FailedUndo(s, k);
    var id := s.toasts[k].id;
    var t := UndoSettled(UndoStarted(s, id), Call(s.nextCall, s.toasts[k].undo.value, id), false);
    assert SameFace(t.toasts[k], s.toasts[k]);
    assert forall i :: 0 <= i < k ==> SameFace(t.toasts[i], s.toasts[i]) && t.toasts[i].id != id;
    FindAt(t.toasts, id, k);
  }
}
