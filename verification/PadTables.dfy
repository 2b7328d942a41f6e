/** The two tables of controls the page has, an Xbox pad's and a PlayStation pad's, and the columns they give. */
module PadTables {
  import opened Common
  import opened Names
  import opened Fold
  import opened Grid
  import opened PageMatrix

  const SHOULDERS: seq<string> := ["lt", "lb", "rb", "rt"]
  const FACE: seq<string> := ["Y", "B", "A", "X"]

  // The four directions of a mechanism, as both tables list them.
  function Directions(m: Mechanism): seq<string> {
    [MechanismFunction(m, true, true), MechanismFunction(m, true, false),
     MechanismFunction(m, false, false), MechanismFunction(m, false, true)]
  }

  function Front(system: seq<string>): seq<string> { SHOULDERS + FACE + system + ["lthumb"] }

  function Table(system: seq<string>): seq<string> {
    Front(system) + Directions(LStick) + Directions(Dpad) + ["rthumb"] + Directions(RStick)
  }

  const ZONE_XBOX: seq<string> := Table(["guide", "back", "start"])
  const ZONE_DS4: seq<string> := Table(["back", "start", "guide"])

  predicate IsSystem(system: seq<string>) {
    system == ["guide", "back", "start"] || system == ["back", "start", "guide"]
  }

  // ----- which zones are directions

  // Every direction's name has a p, an x or a y second.
  lemma NoDirection(z: string)
    requires |z| < 2 || LowerChar(z[1]) !in ['p', 'x', 'y']
    ensures MechanismOf(z) == None
  {
    var f := Lower(z);
    SecondLetterOf(f, "dpad.");
    SecondLetterOf(f, "lx.");
    SecondLetterOf(f, "ly.");
    SecondLetterOf(f, "rx.");
    SecondLetterOf(f, "ry.");
  }

  lemma SecondLetterOf(s: string, prefix: string)
    requires |prefix| > 1
    ensures StartsWith(s, prefix) ==> |s| > 1 && s[1] == prefix[1]
  {
    assert |prefix| <= |s| ==> s[..|prefix|][1] == s[1];
  }

  lemma NoDirections(zs: seq<string>)
    requires forall i :: 0 <= i < |zs| ==> |zs[i]| < 2 || LowerChar(zs[i][1]) !in ['p', 'x', 'y']
    ensures forall i :: 0 <= i < |zs| ==> MechanismOf(zs[i]) == None
  {
    forall i | 0 <= i < |zs| ensures MechanismOf(zs[i]) == None { NoDirection(zs[i]); }
  }

  lemma DirectionsPoint(m: Mechanism)
    ensures forall i :: 0 <= i < 4 ==> MechanismOf(Directions(m)[i]) == Some(m)
  {
    forall i | 0 <= i < 4 ensures MechanismOf(Directions(m)[i]) == Some(m) {
      CanonicalPoints(m, i < 2, i == 0 || i == 3);
      PointsOnItsPrefix(MechanismFunction(m, i < 2, i == 0 || i == 3));
    }
  }

  // ----- what a stretch of the table adds

  lemma JoinLast<T>(front: seq<T>, zs: seq<T>)
    requires zs != []
    ensures front + zs[..|zs|-1] + [zs[|zs|-1]] == front + zs
  {}

  lemma {:induction false} PlainStretch(front: seq<string>, zs: seq<string>, ring: seq<RingPos>)
    requires forall i :: 0 <= i < |zs| ==> MechanismOf(zs[i]) == None
    ensures ColumnsOf(front + zs, ring) == ColumnsOf(front, ring) + zs
  {
    if zs == [] {
      assert front + zs == front;
    } else {
      var n := |zs| - 1;
      PlainStretch(front, zs[..n], ring);
      OneMore(front, zs, ring);
      JoinLast(ColumnsOf(front, ring), zs);
    }
  }

  lemma PlainStretchHas(front: seq<string>, zs: seq<string>, m: Mechanism)
    requires forall i :: 0 <= i < |zs| ==> MechanismOf(zs[i]) == None
    ensures HasMechanism(front + zs, m) <==> HasMechanism(front, m)
  {
    assert forall z :: z in front + zs <==> z in front || z in zs;
  }

  lemma OneMore(front: seq<string>, zs: seq<string>, ring: seq<RingPos>)
    requires zs != []
    ensures var n := |zs| - 1;
      ColumnsOf(front + zs, ring) == ColumnsOf(front + zs[..n], ring) + Emitted(front + zs[..n], zs[n], ring)
  {
    FrontOf(front, zs);
  }

  lemma FrontOf<T>(front: seq<T>, zs: seq<T>)
    requires zs != []
    ensures var all := front + zs; all[..|all|-1] == front + zs[..|zs|-1] && all[|all|-1] == zs[|zs|-1]
  {}

  lemma StretchHas(front: seq<string>, zs: seq<string>, m: Mechanism)
    requires zs != [] && forall i :: 0 <= i < |zs| ==> MechanismOf(zs[i]) == Some(m)
    ensures forall n :: HasMechanism(front + zs, n) <==> HasMechanism(front, n) || n == m
  {
    assert zs[0] in front + zs;
    assert forall z :: z in front + zs <==> z in front || z in zs;
  }

  lemma {:induction false} RingStretch(front: seq<string>, zs: seq<string>, m: Mechanism, ring: seq<RingPos>)
    requires zs != [] && !HasMechanism(front, m)
    requires forall i :: 0 <= i < |zs| ==> MechanismOf(zs[i]) == Some(m)
    ensures ColumnsOf(front + zs, ring) == ColumnsOf(front, ring) + RingTokens(m, ring)
  {
    var n := |zs| - 1;
    OneMore(front, zs, ring);
    if n == 0 {
      assert front + zs[..0] == front;
    } else {
      RingStretch(front, zs[..n], m, ring);
      StretchHas(front, zs[..n], m);
      assert ColumnsOf(front + zs[..n], ring) + [] == ColumnsOf(front + zs[..n], ring);
    }
  }

  // ----- the columns

  function Columns(system: seq<string>): seq<string> {
    Front(system) + RingTokens(LStick, RING) + RingTokens(Dpad, RING) + ["rthumb"] + RingTokens(RStick, RING)
  }

  lemma PlainZones(system: seq<string>)
    requires IsSystem(system)
    ensures forall i :: 0 <= i < 4 ==> MechanismOf(SHOULDERS[i]) == None && MechanismOf(FACE[i]) == None
    ensures |system| == 3 && forall i :: 0 <= i < 3 ==> MechanismOf(system[i]) == None
    ensures MechanismOf("lthumb") == None && MechanismOf("rthumb") == None
  {
    NoDirections(SHOULDERS);
    NoDirections(FACE);
    NoDirections(system);
    NoDirection("lthumb");
    NoDirection("rthumb");
  }

  /** The page's grid: thirty-seven columns, each stick's ring after its button, and all three mechanisms on the pad. */
  lemma TableColumns(system: seq<string>)
    requires IsSystem(system)
    ensures PageColumns(Table(system)) == Columns(system) && |Columns(system)| == 37
    ensures forall m :: HasMechanism(Table(system), m)
  {
    FrontIsPlain(system);
    DirectionsOn();
    var front := Front(system);
    TwoRings(front, front, Directions(LStick), Directions(Dpad), RING);
    ButtonAndRing(front + Directions(LStick) + Directions(Dpad),
                  front + RingTokens(LStick, RING) + RingTokens(Dpad, RING),
                  ["rthumb"], Directions(RStick), RING, {} + {LStick} + {Dpad});
    AllThree();
  }

  lemma AllThree()
    ensures forall m: Mechanism :: m in {} + {LStick} + {Dpad} + {RStick}
  {
    forall m: Mechanism ensures m in {} + {LStick} + {Dpad} + {RStick} {
      match m case Dpad => case LStick => case RStick =>
    }
  }

  lemma DirectionsOn()
    ensures AllOn(Directions(LStick), LStick) && AllOn(Directions(Dpad), Dpad) && AllOn(Directions(RStick), RStick)
    ensures AllPlain(["rthumb"])
  {
    DirectionsPoint(LStick);
    DirectionsPoint(Dpad);
    DirectionsPoint(RStick);
    NoDirection("rthumb");
  }

  lemma FrontIsPlain(system: seq<string>)
    requires IsSystem(system)
    ensures SoFar(Front(system), Front(system), RING, {}) && |Front(system)| == 12
  {
    PlainZones(system);
    FourPlain(SHOULDERS, FACE, system, ["lthumb"], RING);
  }

  ghost predicate AllPlain(zs: seq<string>) { forall i :: 0 <= i < |zs| ==> MechanismOf(zs[i]) == None }

  ghost predicate AllOn(zs: seq<string>, m: Mechanism) {
    zs != [] && forall i :: 0 <= i < |zs| ==> MechanismOf(zs[i]) == Some(m)
  }

  // The mechanisms of the table so far.
  ghost predicate HasJust(front: seq<string>, ms: set<Mechanism>) { forall m :: HasMechanism(front, m) <==> m in ms }

  // The table so far, its columns and its mechanisms.
  ghost predicate SoFar(zones: seq<string>, columns: seq<string>, ring: seq<RingPos>, ms: set<Mechanism>) {
    ColumnsOf(zones, ring) == columns && HasJust(zones, ms)
  }

  lemma PlainStep(front: seq<string>, columns: seq<string>, zs: seq<string>, ring: seq<RingPos>, ms: set<Mechanism>)
    requires AllPlain(zs) && SoFar(front, columns, ring, ms)
    ensures SoFar(front + zs, columns + zs, ring, ms)
  {
    PlainStretch(front, zs, ring);
    forall m ensures HasMechanism(front + zs, m) <==> m in ms { PlainStretchHas(front, zs, m); }
  }

  lemma RingStep(front: seq<string>, columns: seq<string>, zs: seq<string>, m: Mechanism, ring: seq<RingPos>,
                 ms: set<Mechanism>)
    requires AllOn(zs, m) && SoFar(front, columns, ring, ms) && m !in ms
    ensures SoFar(front + zs, columns + RingTokens(m, ring), ring, ms + {m})
  {
    RingStretch(front, zs, m, ring);
    StretchHas(front, zs, m);
  }

  lemma FourPlain(a: seq<string>, b: seq<string>, c: seq<string>, d: seq<string>, ring: seq<RingPos>)
    requires AllPlain(a) && AllPlain(b) && AllPlain(c) && AllPlain(d)
    ensures SoFar(a + b + c + d, a + b + c + d, ring, {})
  {
    var all := a + b + c + d;
    PlainStretch([], all, ring);
    assert [] + all == all;
    forall m ensures !HasMechanism(all, m) { PlainStretchHas([], all, m); }
  }

  // A mechanism's ring, and then another's; and a button and a ring.
  lemma TwoRings(front: seq<string>, columns: seq<string>, left: seq<string>, pad: seq<string>, ring: seq<RingPos>)
    requires SoFar(front, columns, ring, {}) && AllOn(left, LStick) && AllOn(pad, Dpad)
    ensures SoFar(front + left + pad, columns + RingTokens(LStick, ring) + RingTokens(Dpad, ring), ring,
                  {} + {LStick} + {Dpad})
  {
    RingStep(front, columns, left, LStick, ring, {});
    RingStep(front + left, columns + RingTokens(LStick, ring), pad, Dpad, ring, {} + {LStick});
  }

  lemma ButtonAndRing(front: seq<string>, columns: seq<string>, e: seq<string>, right: seq<string>, ring: seq<RingPos>,
                      ms: set<Mechanism>)
    requires SoFar(front, columns, ring, ms) && RStick !in ms && AllPlain(e) && AllOn(right, RStick)
    ensures SoFar(front + e + right, columns + e + RingTokens(RStick, ring), ring, ms + {RStick})
  {
    PlainStep(front, columns, e, ring, ms);
    RingStep(front + e, columns + e, right, RStick, ring, ms);
  }

  /** On either pad, whatever direction a step holds, in whatever spelling, lights a cell of its row. */
  lemma PadHidesNothing(holds: seq<seq<string>>, system: seq<string>, i: nat, f: string)
    requires IsSystem(system) && i < |holds| && f in holds[i] && PointingOf(f).Some?
    ensures var p, zones := PointingOf(f).value, Table(system);
      exists j: nat :: j < |PageColumns(zones)|
        && PageColumns(zones)[j] == MechanismFunction(p.mechanism, p.vertical, p.positive)
        && CellIn(holds, zones, i, j).state == LitAs(holds[i], p.mechanism)
  {
    TableColumns(system);
    MatrixHidesNothing(holds, Table(system), i, f);
  }

  // ----- the bands

  const LEFT: string := "LEFT STICK"
  const RIGHT: string := "RIGHT STICK"

  /** The group band over it, from left to right. */
  const BANDS: seq<Run> := [
    Run("SHOULDERS", 4), Run("FACE", 4), Run("SYSTEM", 3), Run(LEFT, 9), Run("D-PAD", 8), Run(RIGHT, 9)]

  ghost predicate Under(tokens: seq<string>, band: string) {
    forall i :: 0 <= i < |tokens| ==> TokenBand(tokens[i]) == band
  }

  lemma RingUnder(m: Mechanism)
    ensures Under(RingTokens(m, RING), MechanismBand(m))
  {
    forall i | 0 <= i < |RING| ensures TokenBand(RingTokens(m, RING)[i]) == MechanismBand(m) {
      RingTokenBand(m, RING[i]);
    }
  }

  lemma NoPick(z: string)
    requires |z| < 2 || z[1] != 'i'
    ensures ParseDiagToken(z) == None
  {
    SecondLetterOf(z, "diag:");
  }

  lemma ButtonsUnder(system: seq<string>)
    requires IsSystem(system)
    ensures Under(SHOULDERS, "SHOULDERS") && Under(FACE, "FACE") && Under(system, "SYSTEM")
    ensures Under(["lthumb"], LEFT) && Under(["rthumb"], RIGHT)
  {
    ShouldersUnder();
    FaceUnder();
    SystemUnder(system);
    NoPick("lthumb");
    NoPick("rthumb");
  }

  lemma ShouldersUnder()
    ensures Under(SHOULDERS, "SHOULDERS")
  {
    forall i | 0 <= i < 4 ensures TokenBand(SHOULDERS[i]) == "SHOULDERS" { NoPick(SHOULDERS[i]); }
  }

  lemma FaceUnder()
    ensures Under(FACE, "FACE")
  {
    forall i | 0 <= i < 4 ensures TokenBand(FACE[i]) == "FACE" { NoPick(FACE[i]); }
  }

  lemma SystemUnder(system: seq<string>)
    requires IsSystem(system)
    ensures Under(system, "SYSTEM")
  {
    forall i | 0 <= i < 3 ensures TokenBand(system[i]) == "SYSTEM" { NoPick(system[i]); }
  }

  // The bands of tokens that all stand under one.
  ghost function BandsOf(tokens: seq<string>): (r: seq<string>)
    ensures |r| == |tokens| && forall i :: 0 <= i < |r| ==> r[i] == TokenBand(tokens[i])
  {
    seq(|tokens|, i requires 0 <= i < |tokens| => TokenBand(tokens[i]))
  }

  lemma BandsJoin(a: seq<string>, b: seq<string>, band: string)
    requires Under(b, band)
    ensures BandsOf(a + b) == BandsOf(a) + Repeated(|b|, band)
  {}

  /** Over either pad's columns the group band reads shoulders, face, system, left stick, d-pad, right stick: those runs
      and no others spell out the bands of the columns. */
  lemma TableBands(system: seq<string>, runs: seq<Run>)
    requires IsSystem(system)
    ensures Banded(runs) && Expand(runs) == BandsOf(PageColumns(Table(system))) <==> runs == BANDS
  {
    TableColumns(system);
    ButtonsUnder(system);
    RingUnder(LStick);
    RingUnder(Dpad);
    RingUnder(RStick);
    BandsOfEight(SHOULDERS, FACE, system, ["lthumb"], RingTokens(LStick, RING), RingTokens(Dpad, RING), ["rthumb"],
                 RingTokens(RStick, RING));
    BandsSpelled();
    if Banded(runs) && Expand(runs) == Expand(BANDS) { BandUnique(runs, BANDS); }
  }

  lemma BandsOfEight(a: seq<string>, b: seq<string>, c: seq<string>, d: seq<string>, left: seq<string>,
                     pad: seq<string>, e: seq<string>, right: seq<string>)
    requires Under(a, "SHOULDERS") && Under(b, "FACE") && Under(c, "SYSTEM") && Under(d, LEFT) && Under(left, LEFT)
    requires Under(pad, "D-PAD") && Under(e, RIGHT) && Under(right, RIGHT)
    ensures BandsOf(a + b + c + d + left + pad + e + right)
         == Repeated(|a|, "SHOULDERS") + Repeated(|b|, "FACE") + Repeated(|c|, "SYSTEM") + Repeated(|d|, LEFT)
            + Repeated(|left|, LEFT) + Repeated(|pad|, "D-PAD") + Repeated(|e|, RIGHT) + Repeated(|right|, RIGHT)
  {
    assert BandsOf([]) == [];
    BandsJoin([], a, "SHOULDERS");
    assert [] + a == a && [] + Repeated(|a|, "SHOULDERS") == Repeated(|a|, "SHOULDERS");
    BandsJoin(a, b, "FACE");
    BandsJoin(a + b, c, "SYSTEM");
    BandsJoin(a + b + c, d, LEFT);
    BandsJoin(a + b + c + d, left, LEFT);
    BandsJoin(a + b + c + d + left, pad, "D-PAD");
    BandsJoin(a + b + c + d + left + pad, e, RIGHT);
    BandsJoin(a + b + c + d + left + pad + e, right, RIGHT);
  }

  lemma BandsSpelled()
    ensures Banded(BANDS)
    ensures Expand(BANDS) == Repeated(4, "SHOULDERS") + Repeated(4, "FACE") + Repeated(3, "SYSTEM")
      + Repeated(1, LEFT) + Repeated(8, LEFT) + Repeated(8, "D-PAD") + Repeated(1, RIGHT) + Repeated(8, RIGHT)
  {
    SixRuns(Run("SHOULDERS", 4), Run("FACE", 4), Run("SYSTEM", 3), Run(LEFT, 9), Run("D-PAD", 8), Run(RIGHT, 9));
    RepeatedJoin(1, 8, LEFT);
    RepeatedJoin(1, 8, RIGHT);
    Regroup(Repeated(4, "SHOULDERS") + Repeated(4, "FACE") + Repeated(3, "SYSTEM"), Repeated(1, LEFT),
            Repeated(8, LEFT), Repeated(8, "D-PAD"), Repeated(1, RIGHT), Repeated(8, RIGHT));
  }

  lemma RepeatedJoin(m: nat, n: nat, band: string)
    ensures Repeated(m + n, band) == Repeated(m, band) + Repeated(n, band)
  {}

  lemma Regroup<T>(front: seq<T>, a: seq<T>, b: seq<T>, c: seq<T>, d: seq<T>, e: seq<T>)
    ensures front + (a + b) + c + (d + e) == front + a + b + c + d + e
  {}

  lemma SixRuns(a: Run, b: Run, c: Run, d: Run, e: Run, f: Run)
    ensures Expand([a, b, c, d, e, f])
         == Repeated(a.span, a.band) + Repeated(b.span, b.band) + Repeated(c.span, c.band)
            + Repeated(d.span, d.band) + Repeated(e.span, e.band) + Repeated(f.span, f.band)
  {
    ExpandMore([], a);
    assert [] + [a] == [a] && Expand([]) == [];
    ExpandMore([a], b);
    assert [a] + [b] == [a, b];
    ExpandMore([a, b], c);
    assert [a, b] + [c] == [a, b, c];
    ExpandMore([a, b, c], d);
    assert [a, b, c] + [d] == [a, b, c, d];
    ExpandMore([a, b, c, d], e);
    assert [a, b, c, d] + [e] == [a, b, c, d, e];
    ExpandMore([a, b, c, d, e], f);
    assert [a, b, c, d, e] + [f] == [a, b, c, d, e, f];
  }
}
