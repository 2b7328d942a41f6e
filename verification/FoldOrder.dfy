/** The order in which a hold is presented. */
module FoldOrder {
  import opened Common
  import opened Names
  import opened Fold

  function Place(d: Diag): int { match d case UL => 0 case UR => 1 case DL => 2 case DR => 3 }

  function Rank(m: Mechanism): int { match m case Dpad => 0 case LStick => 1 case RStick => 2 }

  // Diagonals come first, in the order of their names; what is left as it is follows, in the order it is held.
  ghost predicate Before(a: Held, b: Held) {
    match (a, b)
    case (DiagHeld(d, _, _, _), DiagHeld(e, _, _, _)) => Place(d) < Place(e)
    case (DiagHeld(_, _, _, _), PlainHeld(_)) => true
    case (PlainHeld(_), DiagHeld(_, _, _, _)) => false
    case (PlainHeld(i), PlainHeld(j)) => i < j
  }

  ghost predicate InOrder(out: seq<Held>) { forall i, j :: 0 <= i < j < |out| ==> Before(out[i], out[j]) }

  ghost predicate Rising(ds: seq<Diag>) { forall i, j :: 0 <= i < j < |ds| ==> Place(ds[i]) < Place(ds[j]) }

  ghost predicate MechanismsInOrder(ms: seq<Mechanism>) {
    forall i, j :: 0 <= i < j < |ms| ==> Rank(ms[i]) < Rank(ms[j])
  }

  lemma InOrderJoin(a: seq<Held>, b: seq<Held>)
    requires InOrder(a) && InOrder(b) && forall g, h :: g in a && h in b ==> Before(g, h)
    ensures InOrder(a + b)
  {
    forall i, j | 0 <= i < |a| && 0 <= j < |b| ensures Before(a[i], b[j]) { assert a[i] in a && b[j] in b; }
  }

  lemma {:induction false} DiagsInOrder(hold: Parsed, all: seq<Mechanism>, ds: seq<Diag>)
    requires Rising(ds)
    ensures InOrder(DiagControls(hold, all, ds))
  {
    if ds != [] {
      var front, d := ds[..|ds|-1], ds[|ds|-1];
      DiagsInOrder(hold, all, front);
      var control := DiagControl(hold, all, d);
      forall g | g in DiagControls(hold, all, front) ensures Before(g, control) {
        DiagControlsMembers(hold, all, front, g);
        assert g.diag in front;
      }
      InOrderJoin(DiagControls(hold, all, front), if control.mechanisms == [] then [] else [control]);
    }
  }

  lemma {:induction false} PlainsInOrder(hold: Parsed, n: nat)
    requires n <= |hold|
    ensures InOrder(PlainControls(hold, n))
  {
    if n != 0 {
      PlainsInOrder(hold, n - 1);
      var last := PlainHeld(n - 1);
      forall g | g in PlainControls(hold, n - 1) ensures Before(g, last) {
        PlainControlsMembers(hold, n - 1, g);
      }
      InOrderJoin(PlainControls(hold, n - 1), if Consumed(hold, n - 1) then [] else [PlainHeld(n - 1)]);
    }
  }

  lemma {:induction false} WithDiagInOrder(hold: Parsed, d: Diag, ms: seq<Mechanism>)
    requires MechanismsInOrder(ms)
    ensures MechanismsInOrder(WithDiag(hold, d, ms))
  {
    if ms != [] {
      var front, m := ms[..|ms|-1], ms[|ms|-1];
      WithDiagInOrder(hold, d, front);
      var kept := WithDiag(hold, d, front);
      forall i | 0 <= i < |kept| ensures Rank(kept[i]) < Rank(m) {
        assert kept[i] in kept && kept[i] in front;
      }
    }
  }

  /** What is presented stands in one order, whatever the order the hold was built in: diagonals from up-left to
      down-right, each naming its mechanisms from the d-pad to the right stick, then the rest as held. */
  lemma PresentedInOrder(hold: Parsed)
    ensures InOrder(Presented(hold))
    ensures forall h :: h in Presented(hold) && h.DiagHeld? ==> MechanismsInOrder(h.mechanisms) && Ascending(h.members)
  {
    var ds, ps := DiagControls(hold, MECHANISMS, DIAGS), PlainControls(hold, |hold|);
    DiagsInOrder(hold, MECHANISMS, DIAGS);
    PlainsInOrder(hold, |hold|);
    forall g, h | g in ds && h in ps ensures Before(g, h) {
      DiagControlsMembers(hold, MECHANISMS, DIAGS, g);
      PlainControlsMembers(hold, |hold|, h);
    }
    InOrderJoin(ds, ps);
    forall h | h in Presented(hold) && h.DiagHeld? ensures MechanismsInOrder(h.mechanisms) && Ascending(h.members) {
      PresentedMembers(hold, h);
      WithDiagInOrder(hold, h.diag, MECHANISMS);
    }
  }
}
