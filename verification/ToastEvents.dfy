/** What each event does to the toasts on screen, toast by toast. */
module ToastEvents {
  import opened Common
  import opened Timing
  import opened Toasts

  // Counting down from `remaining`, unless a hand is on the stack.
  ghost predicate CountsDown(s: State, t: Toast, remaining: int) {
    t.remaining == remaining && (t.timer.Some? <==> !s.held) && (!s.held ==> t.deadline == s.now + remaining)
  }

  // Nothing changed but the toasts, their timeouts and the bookkeeping of new ones.
  ghost predicate SameCalls(s: State, t: State) {
    t.calls == s.calls && t.nextCall == s.nextCall && t.done == s.done && t.now == s.now && t.held == s.held
  }

  // Only toast k changed.
  ghost predicate OnlyAt(s: State, t: State, k: int) {
    |t.toasts| == |s.toasts| && forall i :: 0 <= i < |s.toasts| && i != k ==> t.toasts[i] == s.toasts[i]
  }

  /** A push puts a new toast on top, with the undo it was given and eight seconds to go, and drops the oldest beyond
      three; the others stay as they are. */
  lemma PushShows(s: State, undo: Option<nat>)
    requires StackInv(s) && Enabled(s, Push(undo))
    ensures var t := Apply(s, Push(undo));
      && |t.toasts| == Min(|s.toasts| + 1, 3) && SameCalls(s, t)
      && t.toasts[0].id == t.seqNo == s.seqNo + 1 && t.toasts[0].undo == undo && !t.toasts[0].busy
      && CountsDown(t, t.toasts[0], 8000)
      && forall i :: 0 < i < |t.toasts| ==> t.toasts[i] == s.toasts[i-1]
  {
    var u := Offered(s, undo);
    PushedCore(s, undo);
    TrimmedKeeps(u);
    assert Trimmed(u).toasts == u.toasts[..|Trimmed(u).toasts|];
  }

  /** A replace rewrites the toast of that id where it stands: the new undo, not busy, eight seconds to go. With no such
      toast it is a push. */
  lemma ReplaceShows(s: State, id: nat, undo: Option<nat>, k: nat)
    requires StackInv(s) && Enabled(s, Replace(id, undo))
    ensures k < |s.toasts| && s.toasts[k].id == id ==>
      var t := Apply(s, Replace(id, undo));
      && OnlyAt(s, t, k) && SameCalls(s, t) && t.seqNo == s.seqNo
      && t.toasts[k].id == id && t.toasts[k].undo == undo && !t.toasts[k].busy && CountsDown(t, t.toasts[k], 8000)
    ensures (forall i :: 0 <= i < |s.toasts| ==> s.toasts[i].id != id) ==>
      Apply(s, Replace(id, undo)) == Apply(s, Push(undo))
  {
    if k < |s.toasts| && s.toasts[k].id == id { FindAt(s.toasts, id, k); }
  }

  /** A dismiss takes out the toast of that id and closes the gap; with none it does nothing. */
  lemma DismissTakesOut(s: State, id: nat, k: nat)
    requires StackInv(s)
    ensures k < |s.toasts| && s.toasts[k].id == id ==>
      var t := Apply(s, Dismiss(id));
      && t.toasts == s.toasts[..k] + s.toasts[k+1..] && SameCalls(s, t) && t.seqNo == s.seqNo
      && forall n :: n in t.pending <==> n in s.pending && Some(n) != s.toasts[k].timer
    ensures (forall i :: 0 <= i < |s.toasts| ==> s.toasts[i].id != id) ==> Apply(s, Dismiss(id)) == s
  {
    if k < |s.toasts| && s.toasts[k].id == id { FindAt(s.toasts, id, k); }
  }

  /** A timeout that fires takes out the one toast that had armed it. */
  lemma TimeoutTakesOut(s: State, timer: nat, k: nat)
    requires StackInv(s) && Enabled(s, Fire(timer)) && k < |s.toasts| && s.toasts[k].timer == Some(timer)
    ensures Apply(s, Fire(timer)) == Apply(s, Dismiss(s.toasts[k].id))
    ensures Apply(s, Fire(timer)).toasts == s.toasts[..k] + s.toasts[k+1..]
  {
    assert ArmedFor(s, k);
    FiredIsDismissed(s, timer);
    DismissTakesOut(s, s.toasts[k].id, k);
  }

  /** Undo, on a toast that offers one and is not busy, sends that toast's own call and stops its clock; on any other it
      does nothing. */
  lemma UndoBegins(s: State, k: nat)
    requires StackInv(s) && CallInv(s) && k < |s.toasts|
    ensures var t, toast := Apply(s, RunUndo(s.toasts[k].id)), s.toasts[k];
      if toast.undo.None? || toast.busy then t == s
      else
        && OnlyAt(s, t, k) && t.toasts[k].id == toast.id && t.toasts[k].undo == toast.undo
        && t.toasts[k].busy && t.toasts[k].timer.None?
        && t.calls == s.calls + {Call(s.nextCall, toast.undo.value, toast.id)} && t.done == s.done
  {
    FindAt(s.toasts, s.toasts[k].id, k);
  }

  /** The answer to an undo takes the call off the wire and notes a success. Its toast, if still shown, is not busy any
      more, has lost its undo exactly when that succeeded, and has eight seconds to go; no other toast changes. */
  lemma AnswerSettles(s: State, call: Call, ok: bool, k: nat)
    requires StackInv(s) && CallInv(s) && Enabled(s, Settle(call, ok))
    ensures var t := Apply(s, Settle(call, ok));
      && t.calls == s.calls - {call} && t.done == (if ok then s.done + [call.closure] else s.done)
      && (k < |s.toasts| && s.toasts[k].id == call.toast ==>
        OnlyAt(s, t, k) && t.toasts[k].id == call.toast && !t.toasts[k].busy
        && t.toasts[k].undo == (if ok then None else s.toasts[k].undo) && CountsDown(t, t.toasts[k], 8000))
      && ((forall i :: 0 <= i < |s.toasts| ==> s.toasts[i].id != call.toast) ==> t.toasts == s.toasts)
  {
    assert CallOk(s, call);
    if k < |s.toasts| && s.toasts[k].id == call.toast { FindAt(s.toasts, call.toast, k); }
  }

  lemma TimePasses(s: State, ms: nat)
    ensures Apply(s, Advance(ms)) == s.(now := s.now + ms)
  {}

  /** A hand on the stack stops every clock at the time it has left, at least 1.2 seconds. */
  lemma HoldStopsAll(s: State, i: nat)
    requires StackInv(s) && !s.held && i < |s.toasts|
    ensures var t := Apply(s, Hold);
      && t.held && |t.toasts| == |s.toasts| && t.pending == map[]
      && SameFace(t.toasts[i], s.toasts[i]) && t.toasts[i].timer.None?
      && (s.toasts[i].deadline > 0 ==> t.toasts[i].remaining == Max(1200, s.toasts[i].deadline - s.now))
      && (s.toasts[i].deadline <= 0 ==> t.toasts[i].remaining == s.toasts[i].remaining)
  {
    HoldUpToKeeps(s.(held := true), |s.toasts|);
    var t := Apply(s, Hold);
    assert forall n :: n in t.pending ==> Carried(t.toasts, n);
  }

  /** Letting go starts every clock again but those of toasts whose undo is in flight. */
  lemma ReleaseStartsAll(s: State, i: nat)
    requires StackInv(s) && s.held && i < |s.toasts|
    ensures var t := Apply(s, Release);
      && !t.held && |t.toasts| == |s.toasts| && SameFace(t.toasts[i], s.toasts[i])
      && (if s.toasts[i].busy then t.toasts[i].timer.None? else CountsDown(t, t.toasts[i], s.toasts[i].remaining))
  {
    ReleaseUpToKeeps(s.(held := false), |s.toasts|);
  }
}
