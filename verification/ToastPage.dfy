/** The toast stack as the page keeps it: toast objects updated in place. */
module ToastPage {
  import opened Common
  import opened Timing
  import opened Toasts

  class LiveToast {
    const id: nat
    var undo: Option<nat>
    var busy: bool
    var remaining: int
    var deadline: int
    var timer: Option<nat>

    constructor (id: nat, undo: Option<nat>)
      ensures this.id == id && Face() == Toast(id, undo, false, TOAST_MS, 0, None)
    {
      this.id, this.undo, busy, remaining, deadline, timer := id, undo, false, TOAST_MS, 0, None;
    }

    function Face(): Toast
      reads this
    {
      Toast(id, undo, busy, remaining, deadline, timer)
    }
  }

  ghost function Faces(ts: seq<LiveToast>): (r: seq<Toast>)
    reads ts
    ensures |r| == |ts| && forall i :: 0 <= i < |ts| ==> r[i] == ts[i].Face()
  {
    seq(|ts|, i requires 0 <= i < |ts| reads ts => ts[i].Face())
  }

  /** The page's toast variables. `now` is the clock; the ghost fields are the timeouts the browser holds, the
      undo calls in flight, and history. */
  class ToastStack {
    var liveToasts: seq<LiveToast>
    var toastSeq: nat
    var toastsHeld: bool
    var now: int
    var nextTimer: nat
    ghost var pending: map<nat, nat>
    ghost var calls: set<Call>
    ghost var nextCall: nat
    ghost var used: set<nat>
    ghost var done: seq<nat>

    ghost predicate Valid()
      reads this
    {
      forall i, j :: 0 <= i < j < |liveToasts| ==> liveToasts[i] != liveToasts[j]
    }

    ghost function Now(): State
      reads this, liveToasts
    {
      State(Faces(liveToasts), toastSeq, toastsHeld, now, pending, nextTimer, calls, nextCall, used, done)
    }

    constructor (start: int)
      ensures Valid() && Now() == INITIAL(start) && liveToasts == []
    {
      liveToasts, toastSeq, toastsHeld, now, nextTimer := [], 0, false, start, 0;
      pending, calls, nextCall, used, done := map[], {}, 0, {}, [];
    }

    method ArmToast(t: LiveToast, ghost i: nat)
      requires Valid() && i < |liveToasts| && liveToasts[i] == t
      modifies t`deadline, t`timer, this`nextTimer, this`pending
      ensures Now() == ArmAt(old(Now()), i)
    {
      if toastsHeld { return; }
      t.deadline := now + t.remaining;
      t.timer := Some(nextTimer);
      pending, nextTimer := pending[nextTimer := t.id], nextTimer + 1;
      assert Now().toasts == old(Now()).toasts[i := t.Face()];
    }

    method HoldToast(t: LiveToast, ghost i: nat)
      requires Valid() && i < |liveToasts| && liveToasts[i] == t
      modifies t`timer, t`remaining, this`pending
      ensures Now() == HoldAt(old(Now()), i)
      ensures t.timer.None?
    {
      if t.timer.Some? {
        pending := pending - {t.timer.value};
        t.timer := None;
      }
      if t.deadline > 0 { t.remaining := Max(1200, t.deadline - now); }
      assert Now().toasts == old(Now()).toasts[i := t.Face()];
    }

    method HoldToasts()
      requires Valid()
      modifies this`toastsHeld, this`pending, liveToasts
      ensures Now() == HoldAll(old(Now())) && Valid()
    {
      if toastsHeld { return; }
      toastsHeld := true;
      ghost var s := Now();
      assert s == old(Now()).(held := true);
      HoldEach();
    }

    method HoldEach()
      requires Valid()
      modifies this`pending, liveToasts
      ensures Now() == HoldUpTo(old(Now()), |liveToasts|)
    {
      var i := 0;
      while i < |liveToasts|
        invariant i <= |liveToasts|
        invariant Now() == HoldUpTo(old(Now()), i)
      {
        HoldToast(liveToasts[i], i);
        i := i + 1;
      }
    }

    method ReleaseToasts()
      requires Valid()
      modifies this`toastsHeld, this`pending, this`nextTimer, liveToasts
      ensures Now() == ReleaseAll(old(Now())) && Valid()
    {
      if !toastsHeld { return; }
      toastsHeld := false;
      ghost var s := Now();
      assert s == old(Now()).(held := false);
      RearmEach();
    }

    method RearmEach()
      requires Valid()
      modifies this`pending, this`nextTimer, liveToasts
      ensures Now() == ReleaseUpTo(old(Now()), |liveToasts|)
    {
      var i := 0;
      while i < |liveToasts|
        invariant i <= |liveToasts|
        invariant Now() == ReleaseUpTo(old(Now()), i)
      {
        RearmToast(liveToasts[i], i);
        i := i + 1;
      }
    }

    method RearmToast(t: LiveToast, ghost i: nat)
      requires Valid() && i < |liveToasts| && liveToasts[i] == t
      modifies t`deadline, t`timer, this`nextTimer, this`pending
      ensures Now() == ReleaseStep(old(Now()), i)
    {
      if !t.busy { ArmToast(t, i); }
    }

    // `liveToasts.find`
    method FindToast(id: nat) returns (t: Option<LiveToast>, ghost k: nat)
      ensures k == Find(Now().toasts, id)
      ensures t.Some? <==> k < |liveToasts|
      ensures t.Some? ==> liveToasts[k] == t.value
    {
      k := 0;
      t := None;
      var i := 0;
      while i < |liveToasts|
        invariant 0 <= i <= |liveToasts| && k == i
        invariant forall j :: 0 <= j < i ==> liveToasts[j].id != id
      {
        if liveToasts[i].id == id { return Some(liveToasts[i]), i; }
        i := i + 1;
        k := i;
      }
    }

    method PushToast(undo: Option<nat>) returns (id: nat)
      requires Valid()
      modifies this, liveToasts
      ensures Now() == Pushed(old(Now()), undo) && Valid() && id == toastSeq
      ensures forall t :: t in liveToasts ==> t in old(liveToasts) || fresh(t)
    {
      var t := Offer(undo);
      DropOldest();
      assert liveToasts[0] == t;
      PrefixHas(liveToasts, [t] + old(liveToasts));
      ArmToast(t, 0);
      id := t.id;
    }

    method Offer(undo: Option<nat>) returns (t: LiveToast)
      requires Valid()
      modifies this`liveToasts, this`toastSeq, this`used
      ensures fresh(t) && liveToasts == [t] + old(liveToasts) && Valid() && t.id == toastSeq
      ensures Now() == Offered(old(Now()), undo)
    {
      toastSeq := toastSeq + 1;
      used := Uses(used, undo);
      t := new LiveToast(toastSeq, undo);
      PutOnTop(t);
    }

    // `liveToasts = [t, ...liveToasts]`
    method PutOnTop(t: LiveToast)
      requires Valid() && t !in liveToasts
      modifies this`liveToasts
      ensures liveToasts == [t] + old(liveToasts) && Valid()
      ensures Now() == old(Now()).(toasts := [t.Face()] + old(Now()).toasts)
    {
      liveToasts := [t] + liveToasts;
      assert Now().toasts == [t.Face()] + old(Now()).toasts;
    }

    method DropOldest()
      requires Valid()
      modifies this`liveToasts, this`pending
      ensures Now() == Trimmed(old(Now())) && Valid()
      ensures liveToasts <= old(liveToasts) && |liveToasts| == Min(|old(liveToasts)|, TOAST_MAX)
    {
      while |liveToasts| > TOAST_MAX
        invariant Valid() && Trimmed(Now()) == Trimmed(old(Now()))
        invariant liveToasts <= old(liveToasts) && |liveToasts| >= Min(|old(liveToasts)|, TOAST_MAX)
        decreases |liveToasts|
      {
        DropLast();
      }
    }

    // `liveToasts.pop()`, and its timeout cleared
    method DropLast()
      requires Valid() && |liveToasts| > 0
      modifies this`liveToasts, this`pending
      ensures liveToasts == old(liveToasts)[..|old(liveToasts)|-1] && Valid()
      ensures Now() == Popped(old(Now()))
    {
      var n := |liveToasts| - 1;
      var gone := liveToasts[n];
      liveToasts := liveToasts[..n];
      if gone.timer.Some? { pending := pending - {gone.timer.value}; }
      assert Now().toasts == old(Now()).toasts[..n];
    }

    method ReplaceToast(id: nat, undo: Option<nat>) returns (shown: nat)
      requires Valid()
      modifies this, liveToasts
      ensures Now() == Replaced(old(Now()), id, undo) && Valid()
      ensures shown == if Find(old(Now()).toasts, id) < |old(liveToasts)| then id else toastSeq
    {
      var t, k := FindToast(id);
      if t.None? {
        shown := PushToast(undo);
        return;
      }
      HoldToast(t.value, k);
      Reshow(t.value, k, undo);
      ArmToast(t.value, k);
      shown := t.value.id;
    }

    // The toast starts over: not busy, eight seconds, this undo or none.
    method Reshow(t: LiveToast, ghost k: nat, undo: Option<nat>)
      requires Valid() && k < |liveToasts| && liveToasts[k] == t
      modifies t`undo, t`busy, t`remaining, this`used
      ensures Now() == Set(old(Now()), k, old(t.Face()).(undo := undo, busy := false, remaining := TOAST_MS))
        .(used := Uses(old(used), undo))
    {
      t.undo := undo;
      t.busy := false;
      t.remaining := TOAST_MS;
      used := Uses(used, undo);
      assert Now().toasts == old(Now()).toasts[k := t.Face()];
    }

    method DismissToast(id: nat)
      requires Valid()
      modifies this`liveToasts, this`pending
      ensures Now() == Dismissed(old(Now()), id) && Valid()
      ensures forall t :: t in liveToasts ==> t in old(liveToasts)
    {
      var t, k := FindToast(id);
      if t.Some? { TakeOut(t.value, k); }
    }

    method TakeOut(t: LiveToast, ghost k: nat)
      requires Valid() && k < |liveToasts| && liveToasts[k] == t
      modifies this`liveToasts, this`pending
      ensures liveToasts == old(liveToasts)[..k] + old(liveToasts)[k+1..] && Valid()
      ensures Now() == Removed(old(Now()), k)
    {
      if t.timer.Some? { pending := pending - {t.timer.value}; }
      var kept := WithoutToast(liveToasts, t, k);
      Keep(kept, k);
    }

    method Keep(kept: seq<LiveToast>, ghost k: nat)
      requires Valid() && k < |liveToasts| && kept == liveToasts[..k] + liveToasts[k+1..]
      modifies this`liveToasts
      ensures liveToasts == kept && Valid()
      ensures Now() == old(Now()).(toasts := old(Now()).toasts[..k] + old(Now()).toasts[k+1..])
    {
      liveToasts := kept;
      assert Now().toasts == old(Now()).toasts[..k] + old(Now()).toasts[k+1..];
    }

    /** `runUndo` up to its await: the closure it goes on to call, if any. */
    method RunUndo(id: nat) returns (toast: Option<LiveToast>)
      requires Valid()
      modifies this`pending, this`calls, this`nextCall, liveToasts
      ensures Now() == UndoStarted(old(Now()), id) && Valid()
      ensures toast.Some? <==> nextCall != old(nextCall)
      ensures toast.Some? ==> toast.value in liveToasts && toast.value.id == id
    {
      var t, k := FindToast(id);
      if t.None? || t.value.undo.None? || t.value.busy { return None; }
      Begin(t.value, k);
      toast := t;
    }

    method Begin(t: LiveToast, ghost k: nat)
      requires Valid() && k < |liveToasts| && liveToasts[k] == t && t.undo.Some?
      modifies this`pending, this`calls, this`nextCall, t`busy, t`timer, t`remaining
      ensures Now() == Begun(old(Now()), k)
    {
      MarkBusy(t, k);
      HoldToast(t, k);
      calls, nextCall := calls + {Call(nextCall, t.undo.value, t.id)}, nextCall + 1;
    }

    method MarkBusy(t: LiveToast, ghost k: nat)
      requires Valid() && k < |liveToasts| && liveToasts[k] == t
      modifies t`busy
      ensures Now() == Set(old(Now()), k, old(t.Face()).(busy := true))
    {
      t.busy := true;
      assert Now().toasts == old(Now()).toasts[k := t.Face()];
    }

    /** `runUndo` after its await, on the toast it started from; no other live toast has its id. */
    method UndoReplied(t: LiveToast, ghost call: Call, ok: bool)
      requires Valid() && call in calls && call.toast == t.id
      requires forall u :: u in liveToasts && u.id == t.id ==> u == t
      modifies this`pending, this`nextTimer, this`calls, this`done, t
      ensures Now() == UndoSettled(old(Now()), call, ok) && Valid()
    {
      calls, done := calls - {call}, if ok then done + [call.closure] else done;
      assert Now() == Answered(old(Now()), call, ok);
      ghost var k := Find(Now().toasts, t.id);
      if t !in liveToasts { return; }
      assert k < |liveToasts| && liveToasts[k] == t by {
        assert exists j :: 0 <= j < |liveToasts| && liveToasts[j] == t;
      }
      Settle(t, k, ok);
      ArmToast(t, k);
    }

    method Settle(t: LiveToast, ghost k: nat, ok: bool)
      requires Valid() && k < |liveToasts| && liveToasts[k] == t
      modifies t`busy, t`undo, t`remaining
      ensures Now() == Set(old(Now()), k, Rested(old(t.Face()), ok))
    {
      t.busy := false;
      if ok { t.undo := None; }
      t.remaining := TOAST_MS;
      assert Now().toasts == old(Now()).toasts[k := t.Face()];
    }

    /** A timeout of the browser runs its callback. */
    method TimeoutFires(id: nat, timer: nat)
      requires Valid() && timer in pending && pending[timer] == id
      modifies this`liveToasts, this`pending
      ensures Now() == Fired(old(Now()), timer) && Valid()
    {
      pending := pending - {timer};
      DismissToast(id);
    }
  }

  lemma PrefixHas(a: seq<LiveToast>, b: seq<LiveToast>)
    requires a <= b
    ensures forall t :: t in a ==> t in b
  {}

  // `liveToasts.filter((x) => x !== t)`
  method WithoutToast(ts: seq<LiveToast>, t: LiveToast, ghost k: nat) returns (kept: seq<LiveToast>)
    requires k < |ts| && ts[k] == t
    requires forall i, j :: 0 <= i < j < |ts| ==> ts[i] != ts[j]
    ensures kept == ts[..k] + ts[k+1..]
  {
    kept := [];
    var i := 0;
    while i < |ts|
      invariant 0 <= i <= |ts|
      invariant kept == if i <= k then ts[..i] else ts[..k] + ts[k+1..i]
    {
      if ts[i] != t { kept := kept + [ts[i]]; }
      i := i + 1;
    }
  }
}
