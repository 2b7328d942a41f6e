/** What the row verbs do to the order of the steps, and to a duration. */
module DraftRows {
  import opened Common
  import opened Timing
  import opened Macros
  import opened Draft
  import opened DraftInvariant

  lemma SwapUp<T>(steps: seq<T>, i: int)
    requires 0 < i < |steps|
    ensures Reinserted(steps, i, i - 1) == steps[i-1 := steps[i]][i := steps[i-1]]
  {
    var rest := steps[..i] + steps[i+1..];
    assert rest[..i-1] == steps[..i-1] && rest[i-1..] == [steps[i-1]] + steps[i+1..];
  }

  lemma SwapDown<T>(steps: seq<T>, i: int)
    requires 0 <= i < |steps| - 1
    ensures Reinserted(steps, i, i + 1) == steps[i := steps[i+1]][i+1 := steps[i]]
  {
    var rest := steps[..i] + steps[i+1..];
    assert rest[..i+1] == steps[..i] + [steps[i+1]] && rest[i+1..] == steps[i+2..];
  }

  lemma MoveUpSwaps<T>(s: State<T>, i: int)
    requires s.Has(i) && i > 0
    ensures var t := Verbed(s, MoveUp, i, []);
      t.draft.Some? && t.Steps() == s.Steps()[i-1 := s.At(i)][i := s.At(i-1)] && t.sel == Some(i - 1)
  {
    SwapUp(s.Steps(), i);
  }

  lemma MoveDownSwaps<T>(s: State<T>, i: int)
    requires s.Has(i) && s.Has(i + 1)
    ensures var t := Verbed(s, MoveDown, i, []);
      t.draft.Some? && t.Steps() == s.Steps()[i := s.At(i+1)][i+1 := s.At(i)] && t.sel == Some(i + 1)
  {
    SwapDown(s.Steps(), i);
  }

  /** Moving a row up swaps it with the row above, and moving that row down is the same swap; the selection goes
      with the moved row. So either undoes the other. */
  lemma MovesSwapNeighbours<T>(s: State<T>, i: int)
    requires s.Has(i) && i > 0
    ensures var swapped := s.Steps()[i-1 := s.At(i)][i := s.At(i-1)];
      var up, down := Verbed(s, MoveUp, i, []), Verbed(s, MoveDown, i - 1, []);
      && up.Steps() == swapped && down.Steps() == swapped && up.sel == Some(i - 1) && down.sel == Some(i)
      && Verbed(up, MoveDown, i - 1, []).Steps() == s.Steps() && Verbed(down, MoveUp, i, []).Steps() == s.Steps()
  {
    var up, down := Verbed(s, MoveUp, i, []), Verbed(s, MoveDown, i - 1, []);
    MoveUpSwaps(s, i);
    MoveDownSwaps(s, i - 1);
    MoveDownSwaps(up, i - 1);
    MoveUpSwaps(down, i);
  }

  // The new row, before it is deleted again.
  lemma InsertedRow<T>(s: State<T>, k: int, r: T)
    requires Sound(s) && s.draft.Some? && 0 <= k <= |s.Steps()| && r !in s.vals
    ensures var t := Inserted(s, k, [r]);
      && t.draft.Some? && t.Steps() == s.Steps()[..k] + [r] + s.Steps()[k..] && t.Has(k)
      && t.At(k) == r && t.Val(r) == FRESH_STEP && t.sel == Some(k)
      && forall q :: q in s.Steps() ==> t.Val(q) == s.Val(q)
  {
    AdoptGives(s, [r], [FRESH_STEP], 0);
    forall q | q in s.Steps() ensures Inserted(s, k, [r]).Val(q) == s.Val(q) {
      assert Own(s, q);
      AdoptKeeps(s, [r], [FRESH_STEP], q);
    }
  }

  /** A row that is inserted, above or below, and deleted again leaves the values of the others as they were, and the
      rows exactly when there were any: the last row of a draft is emptied, never deleted. */
  lemma InsertThenDelete<T>(s: State<T>, k: int, r: T)
    requires Sound(s) && s.draft.Some? && 0 <= k <= |s.Steps()| && r !in s.vals
    ensures var t := Verbed(s, InsertAbove, k, [r]);
      var u := Verbed(t, DeleteStep, k, []);
      && t.Has(k) && t.At(k) == r && t.Val(r) == FRESH_STEP && t.sel == Some(k)
      && (k > 0 ==> Verbed(s, InsertBelow, k - 1, [r]) == t)
      && (u.Steps() == s.Steps() <==> s.Steps() != []) && forall q :: q in s.Steps() ==> u.Val(q) == s.Val(q)
  {
    var t, steps := Inserted(s, k, [r]), s.Steps();
    InsertedRow(s, k, r);
    assert t.Steps()[..k] + t.Steps()[k+1..] == steps;
    if steps == [] { assert Deleted(t, 0).Steps() == [r]; }
  }

  /** A row authored in frames that is toggled to milliseconds and back is what it was. */
  lemma ToggleTwiceKeepsFrames<T>(s: State<T>, i: int)
    requires s.Has(i) && OneTime(s, s.At(i)) && s.Unit(s.At(i)) == InFrames
    ensures var once := Verbed(s, ToggleUnit, i, []);
      var twice := Verbed(once, ToggleUnit, i, []);
      && once.Val(s.At(i)).ms == Some(FramesMs(s.Val(s.At(i)).frames.GetOr(0)))
      && twice.Val(s.At(i)) == s.Val(s.At(i)) && twice.Unit(s.At(i)) == InFrames
  {
    FramesSurviveToggle(s.vals[s.At(i)].frames.value);
  }
}
