/** The ready-made motions, seen through the lens the grid shows them by. */
module Motions {
  import opened Common
  import opened Names
  import opened Fold
  import opened Lens
  import opened Macros

  lemma TwoNames(m: Mechanism, v: Dir, h: Dir)
    ensures DirNames(m, [v, h]) == [DirName(m, v), DirName(m, h)]
  {
    var both := [v, h];
    assert both[..1] == [v];
    assert DirNames(m, [v]) == DirNames(m, [v][..0]) + [DirName(m, v)];
    assert DirNames(m, [v]) == [DirName(m, v)];
    assert DirNames(m, both) == DirNames(m, both[..1]) + [DirName(m, h)];
  }

  lemma NothingLit(m: Mechanism, d: Diag)
    ensures !DiagLit([], m, d)
  {
    PaintEqualsClick([], m, d);
    assert Mine(ClickPick([], m, d), m) == Pair(m, d) by {
      TickedParts([], m, d);
      ShapeOfNone([], m);
      LitIsShape([], m, d);
    }
  }

  lemma CornerNames(m: Mechanism, v: Dir, h: Dir)
    requires v in [Up, Down] && h in [Left, Right]
    ensures DirNames(m, [v, h]) == Pair(m, DiagFromHalves(v == Up, h == Right))
  {
    TwoNames(m, v, h);
  }

  lemma ClickOnNothing(m: Mechanism, d: Diag)
    ensures ClickPick([], m, d) == Pair(m, d)
    ensures forall m2, d2 :: DiagLit(Pair(m, d), m2, d2) <==> m2 == m && d2 == d
  {
    NothingLit(m, d);
    assert Others([], m) + Pair(m, d) == Pair(m, d);
    PaintEqualsClick([], m, d);
    forall m2, d2 ensures DiagLit(Pair(m, d), m2, d2) <==> m2 == m && d2 == d { NothingLit(m2, d2); }
  }

  /** A step that holds a vertical and a horizontal direction of one mechanism, as every corner of every motion
      does, holds what one click on that diagonal puts into an empty step; and it is shown as exactly that
      diagonal, on that mechanism. */
  lemma CornersFold(m: Mechanism, v: Dir, h: Dir)
    requires v in [Up, Down] && h in [Left, Right]
    ensures var d := DiagFromHalves(v == Up, h == Right);
      && DirNames(m, [v, h]) == ClickPick([], m, d)
      && forall m2, d2 :: DiagLit(DirNames(m, [v, h]), m2, d2) <==> m2 == m && d2 == d
  {
    CornerNames(m, v, h);
    ClickOnNothing(m, DiagFromHalves(v == Up, h == Right));
  }

  // ----- the motions, in the digits of a number pad

  // The place on a number pad: 5 in the middle, 8 up, 6 right.
  function Digit(dirs: seq<Dir>): int {
    5 + (if Right in dirs then 1 else 0) - (if Left in dirs then 1 else 0)
    + (if Up in dirs then 3 else 0) - if Down in dirs then 3 else 0
  }

  function Digits(motion: seq<seq<Dir>>): (r: seq<int>)
    ensures |r| == |motion| && forall i :: 0 <= i < |motion| ==> r[i] == Digit(motion[i])
  {
    seq(|motion|, i requires 0 <= i < |motion| => Digit(motion[i]))
  }

  /** The ready-made motions as players write them, each on one pad and its mirror image. */
  lemma MotionsAsWritten()
    ensures Digits(MotionOf("qcf")) == [2, 3, 6] && Digits(MotionOf("qcb")) == [2, 1, 4]
    ensures Digits(MotionOf("hcf")) == [4, 1, 2, 3, 6] && Digits(MotionOf("hcb")) == [6, 3, 2, 1, 4]
    ensures Digits(MotionOf("dpf")) == [6, 2, 3] && Digits(MotionOf("dpb")) == [4, 2, 1]
    ensures Digits(MotionOf("spdf")) == [6, 3, 2, 1, 4, 7, 8, 9] && Digits(MotionOf("spdb")) == [4, 1, 2, 3, 6, 9, 8, 7]
  {}

  /** What a step of a motion holds: the direction, in the mechanism's own full-deflection names, each once. */
  lemma StepPoints(m: Mechanism, d: Dir)
    ensures DirNames(m, [d]) == [DirName(m, d)]
    ensures PointingOf(DirName(m, d)) == Some(Pointing(m, d == Up || d == Down, d == Up || d == Right, true))
  {
    assert [d][..0] == [];
    assert DirNames(m, [d]) == DirNames(m, []) + [DirName(m, d)];
    CanonicalPoints(m, d == Up || d == Down, d == Up || d == Right);
  }
}
