/** Clicks on the grid edit the stored hold through the same `fold` that paints it. */
module Lens {
  import opened Common
  import opened Names
  import opened Fold

  function Parse(hold: seq<string>): (p: Parsed)
    ensures |p| == |hold|
    ensures forall i :: 0 <= i < |hold| ==> p[i] == PointingOf(hold[i])
  {
    seq(|hold|, i requires 0 <= i < |hold| => PointingOf(hold[i]))
  }

  lemma ParseContains(hold: seq<string>)
    ensures forall f :: f in hold ==> PointingOf(f) in Parse(hold)
    ensures forall p :: p in Parse(hold) ==> exists f :: f in hold && PointingOf(f) == p
  {
    var ps := Parse(hold);
    forall f | f in hold ensures PointingOf(f) in ps {
      var i :| 0 <= i < |hold| && hold[i] == f;
      assert ps[i] in ps;
    }
    forall p | p in ps ensures exists f :: f in hold && PointingOf(f) == p {
      var i :| 0 <= i < |ps| && ps[i] == p;
      assert hold[i] in hold && PointingOf(hold[i]) == p;
    }
  }

  function ShapeOf(hold: seq<string>, m: Mechanism): Option<Diag> {
    Shape(Parse(hold), m)
  }

  // Is the diagonal cell painted on?
  predicate DiagLit(hold: seq<string>, m: Mechanism, d: Diag) {
    Lit(Parse(hold), m, d)
  }

  // A hold's shape on m depends only on the entries that point on m.
  lemma ShapeDependsOnMine(a: seq<string>, b: seq<string>, m: Mechanism)
    requires forall f :: OnMechanism(f, m) ==> (f in a <==> f in b)
    ensures ShapeOf(a, m) == ShapeOf(b, m)
  {
    ParseContains(a);
    ParseContains(b);
    forall v, p ensures HoldsDir(Parse(a), m, v, p) <==> HoldsDir(Parse(b), m, v, p) {}
  }

  // ----- the entries on a mechanism, and all the others, in order

  function OnIt(m: Mechanism): string -> bool { f => OnMechanism(f, m) }

  function OffIt(m: Mechanism): string -> bool { f => !OnMechanism(f, m) }

  function Mine(hold: seq<string>, m: Mechanism): (r: seq<string>)
    ensures forall f :: f in r <==> f in hold && OnMechanism(f, m)
  {
    Filter(OnIt(m), hold)
  }

  function Others(hold: seq<string>, m: Mechanism): (r: seq<string>)
    ensures forall f :: f in r <==> f in hold && !OnMechanism(f, m)
  {
    Filter(OffIt(m), hold)
  }

  lemma OthersOfOthers(hold: seq<string>, m: Mechanism)
    ensures Others(Others(hold, m), m) == Others(hold, m)
    ensures Mine(Others(hold, m), m) == []
  {
    FilterAll(OffIt(m), Others(hold, m));
    FilterAll(OnIt(m), Others(hold, m));
  }

  // ----- clicking a diagonal

  function ClickPick(hold: seq<string>, m: Mechanism, d: Diag): seq<string> {
    if DiagLit(hold, m, d) then Others(hold, m) else Others(hold, m) + Pair(m, d)
  }

  lemma PairPoints(m: Mechanism, d: Diag)
    ensures PointingOf(Pair(m, d)[0]) == Some(Pointing(m, true, d.Up(), true))
    ensures PointingOf(Pair(m, d)[1]) == Some(Pointing(m, false, d.Right(), true))
  {
    CanonicalPoints(m, true, d.Up());
    CanonicalPoints(m, false, d.Right());
  }

  lemma TickedParts(hold: seq<string>, m: Mechanism, d: Diag)
    ensures Mine(Others(hold, m) + Pair(m, d), m) == Pair(m, d)
    ensures Others(Others(hold, m) + Pair(m, d), m) == Others(hold, m)
  {
    var v, h := Pair(m, d)[0], Pair(m, d)[1];
    PairPoints(m, d);
    assert Pair(m, d) == [v, h] && OnIt(m)(v) && OnIt(m)(h);
    OthersOfOthers(hold, m);
    FilterAppendTwo(OnIt(m), Others(hold, m), v, h);
    FilterAppendTwo(OffIt(m), Others(hold, m), v, h);
  }

  lemma ShapeOfTwo(hold: seq<string>, m: Mechanism, d: Diag, v: string, h: string)
    requires Mine(hold, m) == [v, h]
    requires PointingOf(v) == Some(Pointing(m, true, d.Up(), true))
    requires PointingOf(h) == Some(Pointing(m, false, d.Right(), true))
    ensures ShapeOf(hold, m) == Some(d)
  {
    var ps := Parse(hold);
    ParseContains(hold);
    assert v in Mine(hold, m) && h in Mine(hold, m);
    forall p | p in ps && On(p, m) ensures p == PointingOf(v) || p == PointingOf(h) {
      var f :| f in hold && PointingOf(f) == p;
      assert f in Mine(hold, m);
    }
    Fold.ShapeOfTwo(ps, m, d);
  }

  lemma ShapeOfNone(hold: seq<string>, m: Mechanism)
    requires Mine(hold, m) == []
    ensures ShapeOf(hold, m) == None
  {
    var ps := Parse(hold);
    ParseContains(hold);
    forall p | p in ps ensures !On(p, m) {
      var f :| f in hold && PointingOf(f) == p;
      assert f !in Mine(hold, m);
    }
    assert !HoldsDir(ps, m, true, true) && !HoldsDir(ps, m, true, false);
  }

  // A mechanism whose only entries are the pair for d is shown under d; one with none is not shown.
  lemma ShapeOfMine(hold: seq<string>, m: Mechanism, d: Diag)
    ensures Mine(hold, m) == Pair(m, d) ==> ShapeOf(hold, m) == Some(d)
    ensures Mine(hold, m) == [] ==> ShapeOf(hold, m) == None
  {
    if Mine(hold, m) == [] {
      ShapeOfNone(hold, m);
    } else if Mine(hold, m) == Pair(m, d) {
      PairPoints(m, d);
      ShapeOfTwo(hold, m, d, Pair(m, d)[0], Pair(m, d)[1]);
    }
  }

  /** PAINT EQUALS CLICK. A diagonal cell is lit exactly when clicking it clears it. Ticking leaves
      exactly the canonical pair on that mechanism and lights that diagonal and no other there;
      unticking leaves nothing on it. Every other entry keeps its place and its presentation. */
  lemma PaintEqualsClick(hold: seq<string>, m: Mechanism, d: Diag)
    ensures var after := ClickPick(hold, m, d);
      && (DiagLit(hold, m, d) <==> Mine(after, m) == [])
      && (!DiagLit(hold, m, d) <==> Mine(after, m) == Pair(m, d))
      && (forall d2 :: DiagLit(after, m, d2) <==> !DiagLit(hold, m, d) && d2 == d)
      && Others(after, m) == Others(hold, m)
      && forall m2, d2 :: m2 != m ==> (DiagLit(after, m2, d2) <==> DiagLit(hold, m2, d2))
  {
    var after := ClickPick(hold, m, d);
    OthersOfOthers(hold, m);
    TickedParts(hold, m, d);
    ShapeOfMine(after, m, d);
    forall d2 ensures DiagLit(after, m, d2) <==> !DiagLit(hold, m, d) && d2 == d {
      LitIsShape(Parse(after), m, d2);
    }
    forall m2, d2 | m2 != m ensures DiagLit(after, m2, d2) <==> DiagLit(hold, m2, d2) {
      PairPoints(m, d);
      assert forall f :: f in Pair(m, d) ==> OnMechanism(f, m);
      ShapeDependsOnMine(after, hold, m2);
      LitIsShape(Parse(after), m2, d2);
      LitIsShape(Parse(hold), m2, d2);
    }
  }

  /** A second click on the same diagonal puts the hold back exactly when the mechanism held nothing
      before (cell off), or held just the canonical pair, written last (cell on). */
  lemma PickTwice(hold: seq<string>, m: Mechanism, d: Diag)
    ensures var twice := ClickPick(ClickPick(hold, m, d), m, d);
      twice == hold <==>
        hold == Others(hold, m) + if DiagLit(hold, m, d) then Pair(m, d) else []
  {
    PaintEqualsClick(hold, m, d);
    OthersOfOthers(hold, m);
    TickedParts(hold, m, d);
    assert Others(hold, m) + [] == Others(hold, m);
  }

  // ----- clicking any other column

  // A direction matches by where it points, anything else by its spelling without case.
  predicate Matches(f: string, fn: string) {
    match PointingOf(fn)
    case Some(want) => PointsSameWay(f, want)
    case None => Lower(f) == Lower(fn)
  }

  function Meets(fn: string): string -> bool { f => Matches(f, fn) }

  function Misses(fn: string): string -> bool { f => !Matches(f, fn) }

  function FirstMatch(hold: seq<string>, fn: string): (k: nat)
    ensures k <= |hold|
    ensures forall i :: 0 <= i < k ==> !Matches(hold[i], fn)
    ensures k < |hold| ==> Matches(hold[k], fn)
  {
    FirstHit(Meets(fn), hold)
  }

  function ClickName(hold: seq<string>, fn: string): seq<string> { Toggled(Meets(fn), hold, fn) }

  function Click(hold: seq<string>, token: string): seq<string> {
    match ParseDiagToken(token)
    case Some(Pick(m, d)) => ClickPick(hold, m, d)
    case None => ClickName(hold, token)
  }

  predicate NameLit(hold: seq<string>, fn: string) {
    exists f :: f in hold && Matches(f, fn)
  }

  function MatchCount(hold: seq<string>, fn: string): nat { |Filter(Meets(fn), hold)| }

  // What the click does not concern, in order.
  function Unmatched(hold: seq<string>, fn: string): seq<string> { Filter(Misses(fn), hold) }

  lemma CountPositive(hold: seq<string>, fn: string)
    ensures MatchCount(hold, fn) > 0 <==> NameLit(hold, fn)
  {
    var matching := Filter(Meets(fn), hold);
    if matching != [] { assert matching[0] in matching; }
  }

  /** A click on any other column takes out the first match, or adds the name: afterwards the cell is
      lit unless there was exactly one match before, so a duplicate keeps it lit. What does not match
      stays, in order. */
  lemma NameClickEffect(hold: seq<string>, fn: string)
    ensures var after := ClickName(hold, fn);
      && (NameLit(after, fn) <==> MatchCount(hold, fn) != 1)
      && MatchCount(after, fn) == (if NameLit(hold, fn) then MatchCount(hold, fn) - 1 else 1)
      && Unmatched(after, fn) == Unmatched(hold, fn)
  {
    CountPositive(hold, fn);
    CountPositive(ClickName(hold, fn), fn);
    MatchesItself(fn);
    ToggledCounts(Meets(fn), Misses(fn), hold, fn);
  }

  /** To the letter: the first entry that matches goes and the rest close up, or, with none, the name joins at the
      end. */
  lemma NameClickExactly(hold: seq<string>, fn: string)
    ensures var after := ClickName(hold, fn);
      if NameLit(hold, fn) then
        exists k :: 0 <= k < |hold| && Matches(hold[k], fn) && (forall j :: 0 <= j < k ==> !Matches(hold[j], fn))
          && after == hold[..k] + hold[k+1..]
      else after == hold + [fn]
  {
    var k := FirstHit(Meets(fn), hold);
    if k == |hold| {
      forall f | f in hold ensures !Matches(f, fn) {
        var i :| 0 <= i < |hold| && hold[i] == f;
        assert !Meets(fn)(hold[i]);
      }
    } else {
      assert Meets(fn)(hold[k]) && hold[k] in hold;
      assert forall j :: 0 <= j < k ==> !Meets(fn)(hold[j]);
    }
  }

  lemma MatchesItself(fn: string)
    ensures Meets(fn)(fn)
  {}

  /** From an unlit cell, two clicks put the hold back. */
  lemma NameClickTwice(hold: seq<string>, fn: string)
    requires !NameLit(hold, fn)
    ensures ClickName(ClickName(hold, fn), fn) == hold
  {
    MatchesItself(fn);
    ToggledTwice(Meets(fn), hold, fn);
  }

  /** A click on a direction can change the shape of its own mechanism only. */
  lemma DirectionClickIsLocal(hold: seq<string>, fn: string, m: Mechanism)
    requires !OnMechanism(fn, m)
    ensures ShapeOf(ClickName(hold, fn), m) == ShapeOf(hold, m)
  {
    forall f | OnMechanism(f, m) ensures f in ClickName(hold, fn) <==> f in hold {
      NotThatWay(f, fn, m);
      ToggledElsewhere(Meets(fn), hold, fn, f);
    }
    ShapeDependsOnMine(ClickName(hold, fn), hold, m);
  }

  lemma NotThatWay(f: string, fn: string, m: Mechanism)
    requires OnMechanism(f, m) && !OnMechanism(fn, m)
    ensures !Meets(fn)(f) && f != fn
  {
    if Matches(f, fn) { SameNamePointsAlike(f, fn); }
  }

  lemma SameNamePointsAlike(f: string, fn: string)
    requires Matches(f, fn)
    ensures forall m :: OnMechanism(f, m) <==> OnMechanism(fn, m)
  {}
}
