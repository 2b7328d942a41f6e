/** The flat matrix of cells (`macroCellsFor`): what each cell shows, and that nothing held is hidden. */
module Matrix {
  import opened Common
  import opened Names
  import opened Fold
  import opened Lens

  /** `Part` is a direction shown as half of the diagonal beside it. */
  datatype CellState = Off | On(approx: bool) | Part(of: Diag)

  datatype Cell = Cell(step: int, token: string, state: CellState)

  // What the cell of one column shows for one hold.
  function CellAt(hold: seq<string>, token: string): CellState {
    match ParseDiagToken(token)
    case Some(Pick(m, d)) => PickCell(Parse(hold), m, d)
    case None => NameCell(hold, token)
  }

  function PickCell(ps: Parsed, m: Mechanism, d: Diag): CellState {
    if Shape(ps, m) == Some(d) then On(!DiagControl(ps, MECHANISMS, d).exact) else Off
  }

  function NameCell(hold: seq<string>, fn: string): CellState {
    if !NameLit(hold, fn) then Off
    else
      match PointingOf(fn)
      case None => On(false)
      case Some(want) =>
        match ShapeOf(hold, want.mechanism) case Some(d) => Part(d) case None => On(false)
  }

  // ----- as the page computes it

  datatype LitEntry = LitEntry(mechanism: Mechanism, diag: Diag, exact: bool)

  // What the diagonals among the first controls say: the members they took, and the cells they light.
  ghost predicate ViewRead(controls: seq<Held>, memberOf: map<int, Diag>, lit: seq<LitEntry>) {
    (forall h, i :: h in controls && h.DiagHeld? && i in h.members ==> i in memberOf)
    && (forall i :: i in memberOf ==>
      exists h :: h in controls && h.DiagHeld? && i in h.members && memberOf[i] == h.diag)
    && forall e :: e in lit <==>
      exists h :: h in controls && h.DiagHeld?
        && e == LitEntry(e.mechanism, h.diag, h.exact) && e.mechanism in h.mechanisms
  }

  method ReadView(controls: seq<Held>) returns (memberOf: map<int, Diag>, lit: seq<LitEntry>)
    ensures ViewRead(controls, memberOf, lit)
  {
    memberOf, lit := map[], [];
    for k := 0 to |controls|
      invariant ViewRead(controls[..k], memberOf, lit)
    {
      var h := controls[k];
      assert controls[..k+1] == controls[..k] + [h];
      if h.PlainHeld? { continue; }
      var taken := TakeMembers(memberOf, h.members, h.diag);
      var more := LightMechanisms(h.mechanisms, h.diag, h.exact);
      ViewGrows(controls[..k], memberOf, lit, h, taken, more);
      memberOf, lit := taken, lit + more;
    }
    assert controls[..|controls|] == controls;
  }

  method TakeMembers(memberOf: map<int, Diag>, members: seq<int>, d: Diag) returns (taken: map<int, Diag>)
    ensures forall i :: i in taken <==> i in memberOf || i in members
    ensures forall i :: i in taken ==> taken[i] == if i in members then d else memberOf[i]
  {
    taken := memberOf;
    for j := 0 to |members|
      invariant forall i :: i in taken <==> i in memberOf || i in members[..j]
      invariant forall i :: i in taken ==> taken[i] == if i in members[..j] then d else memberOf[i]
    {
      assert members[..j+1] == members[..j] + [members[j]];
      taken := taken[members[j] := d];
    }
    assert members[..|members|] == members;
  }

  method LightMechanisms(ms: seq<Mechanism>, d: Diag, exact: bool) returns (lit: seq<LitEntry>)
    ensures forall e :: e in lit <==> e.mechanism in ms && e.diag == d && e.exact == exact
  {
    lit := [];
    for j := 0 to |ms|
      invariant forall e :: e in lit <==> e.mechanism in ms[..j] && e.diag == d && e.exact == exact
    {
      assert ms[..j+1] == ms[..j] + [ms[j]];
      lit := lit + [LitEntry(ms[j], d, exact)];
    }
    assert ms[..|ms|] == ms;
  }

  lemma ViewGrows(controls: seq<Held>, memberOf: map<int, Diag>, lit: seq<LitEntry>, h: Held,
                  taken: map<int, Diag>, more: seq<LitEntry>)
    requires ViewRead(controls, memberOf, lit) && h.DiagHeld?
    requires forall i :: i in taken <==> i in memberOf || i in h.members
    requires forall i :: i in taken ==> taken[i] == if i in h.members then h.diag else memberOf[i]
    requires forall e :: e in more <==> e.mechanism in h.mechanisms && e.diag == h.diag && e.exact == h.exact
    ensures ViewRead(controls + [h], taken, lit + more)
  {
    var all := controls + [h];
    assert forall g :: g in all <==> g in controls || g == h;
    forall i | i in taken ensures exists g :: g in all && g.DiagHeld? && i in g.members && taken[i] == g.diag {
      if i in h.members { assert h in all; }
      else {
        var g :| g in controls && g.DiagHeld? && i in g.members && memberOf[i] == g.diag;
        assert g in all;
      }
    }
    forall e
      ensures e in lit + more <==>
        exists g :: g in all && g.DiagHeld?
          && e == LitEntry(e.mechanism, g.diag, g.exact) && e.mechanism in g.mechanisms
    {
      if e in more { assert h in all; }
    }
  }

  // The hold's shape puts the mechanism under the diagonal, as exact as its control is.
  predicate IsEntry(ps: Parsed, e: LitEntry) {
    Shape(ps, e.mechanism) == Some(e.diag) && e.exact == DiagControl(ps, MECHANISMS, e.diag).exact
  }

  // The view of a hold: the members of a diagonal, and the lit cells, are the ones its shape says.
  lemma ViewSays(hold: seq<string>, memberOf: map<int, Diag>, lit: seq<LitEntry>)
    requires ViewRead(Presented(Parse(hold)), memberOf, lit)
    ensures forall i :: 0 <= i < |hold| ==>
      (i in memberOf <==> PointingOf(hold[i]).Some? && ShapeOf(hold, PointingOf(hold[i]).value.mechanism).Some?)
    ensures forall i :: 0 <= i < |hold| && i in memberOf ==>
      ShapeOf(hold, PointingOf(hold[i]).value.mechanism) == Some(memberOf[i])
    ensures forall e :: e in lit <==> IsEntry(Parse(hold), e)
  {
    var ps := Parse(hold);
    AllMechanismsAllDiags();
    forall i | 0 <= i < |hold|
      ensures i in memberOf <==> Consumed(ps, i)
      ensures i in memberOf ==> Consumed(ps, i) && Shape(ps, ps[i].value.mechanism) == Some(memberOf[i])
    {
      if Consumed(ps, i) { PresenterOnly(ps, i, Presenter(ps, i)); }
      if i in memberOf {
        var h :| h in Presented(ps) && h.DiagHeld? && i in h.members && memberOf[i] == h.diag;
        PresenterOnly(ps, i, h);
      }
    }
    forall e ensures e in lit <==> IsEntry(ps, e) {
      var control := DiagControl(ps, MECHANISMS, e.diag);
      PresentedMembers(ps, control);
      forall h | h in Presented(ps) && h.DiagHeld? && h.diag == e.diag ensures h == control {
        PresentedMembers(ps, h);
      }
    }
  }

  method StateOf(hold: seq<string>, token: string, memberOf: map<int, Diag>, lit: seq<LitEntry>)
    returns (state: CellState)
    requires ViewRead(Presented(Parse(hold)), memberOf, lit)
    ensures state == CellAt(hold, token)
  {
    ViewSays(hold, memberOf, lit);
    match ParseDiagToken(token) {
      case Some(pick) => state := PickState(Parse(hold), pick.mechanism, pick.diag, lit);
      case None => state := NameState(hold, token, memberOf);
    }
  }

  method PickState(ghost ps: Parsed, m: Mechanism, d: Diag, lit: seq<LitEntry>) returns (state: CellState)
    requires forall e :: e in lit <==> IsEntry(ps, e)
    ensures state == PickCell(ps, m, d)
  {
    for k := 0 to |lit|
      invariant forall j :: 0 <= j < k ==> !(lit[j].mechanism == m && lit[j].diag == d)
    {
      if lit[k].mechanism == m && lit[k].diag == d {
        assert lit[k] in lit;
        return On(!lit[k].exact);
      }
    }
    ghost var e := LitEntry(m, d, DiagControl(ps, MECHANISMS, d).exact);
    assert e !in lit && !IsEntry(ps, e);
    return Off;
  }

  method NameState(hold: seq<string>, fn: string, memberOf: map<int, Diag>) returns (state: CellState)
    requires forall i :: 0 <= i < |hold| ==>
      (i in memberOf <==> PointingOf(hold[i]).Some? && ShapeOf(hold, PointingOf(hold[i]).value.mechanism).Some?)
    requires forall i :: 0 <= i < |hold| && i in memberOf ==>
      ShapeOf(hold, PointingOf(hold[i]).value.mechanism) == Some(memberOf[i])
    ensures state == NameCell(hold, fn)
  {
    var at := FirstMatch(hold, fn);
    FirstMatchIsLit(hold, fn);
    if at == |hold| { return Off; }
    if PointingOf(fn).None? { return On(false); }
    if at in memberOf { return Part(memberOf[at]); }
    return On(false);
  }

  lemma FirstMatchIsLit(hold: seq<string>, fn: string)
    ensures FirstMatch(hold, fn) < |hold| <==> NameLit(hold, fn)
  {
    var k := FirstMatch(hold, fn);
    if k < |hold| { assert hold[k] in hold; }
    if NameLit(hold, fn) {
      var f :| f in hold && Matches(f, fn);
      var i :| 0 <= i < |hold| && hold[i] == f;
    }
  }

  // One cell for each column, as a view of it says.
  function RowBy(step: int, tokens: seq<string>, view: string -> CellState): (r: seq<Cell>)
    ensures |r| == |tokens|
  {
    seq(|tokens|, j requires 0 <= j < |tokens| => Cell(step, tokens[j], view(tokens[j])))
  }

  function ShownFor(hold: seq<string>): string -> CellState { token => CellAt(hold, token) }

  function Row(step: int, hold: seq<string>, tokens: seq<string>): (r: seq<Cell>)
    ensures |r| == |tokens|
  {
    RowBy(step, tokens, ShownFor(hold))
  }

  lemma RowByNext(step: int, tokens: seq<string>, j: nat, view: string -> CellState)
    requires j < |tokens|
    ensures RowBy(step, tokens[..j+1], view)
         == RowBy(step, tokens[..j], view) + [Cell(step, tokens[j], view(tokens[j]))]
  {}

  method RowCells(step: int, hold: seq<string>, tokens: seq<string>) returns (row: seq<Cell>)
    ensures row == Row(step, hold, tokens)
  {
    var controls := FoldHold(Parse(hold));
    var memberOf, lit := ReadView(controls);
    row := [];
    for j := 0 to |tokens|
      invariant row == RowBy(step, tokens[..j], ShownFor(hold))
    {
      var state := StateOf(hold, tokens[j], memberOf, lit);
      RowByNext(step, tokens, j, ShownFor(hold));
      row := row + [Cell(step, tokens[j], state)];
    }
    assert tokens[..|tokens|] == tokens;
  }

  function Concat<T>(rows: seq<seq<T>>): seq<T> {
    if rows == [] then [] else Concat(rows[..|rows|-1]) + rows[|rows|-1]
  }

  lemma {:induction false} ConcatAt<T>(rows: seq<seq<T>>, n: nat, i: nat, j: nat)
    requires (forall k :: 0 <= k < |rows| ==> |rows[k]| == n) && i < |rows| && j < n
    ensures |Concat(rows)| == |rows| * n
    ensures 0 <= i * n + j < |Concat(rows)| && Concat(rows)[i * n + j] == rows[i][j]
    decreases |rows|
  {
    var last := |rows| - 1;
    var front := rows[..last];
    ConcatLength(front, n);
    assert |rows| * n == last * n + n;
    if i < last { ConcatAt(front, n, i, j); }
  }

  lemma {:induction false} ConcatLength<T>(rows: seq<seq<T>>, n: nat)
    requires forall k :: 0 <= k < |rows| ==> |rows[k]| == n
    ensures |Concat(rows)| == |rows| * n
  {
    if rows != [] {
      ConcatLength(rows[..|rows|-1], n);
      assert |rows| * n == (|rows| - 1) * n + n;
    }
  }

  function Rows(holds: seq<seq<string>>, tokens: seq<string>): (r: seq<seq<Cell>>)
    ensures |r| == |holds|
  {
    seq(|holds|, i requires 0 <= i < |holds| => Row(i, holds[i], tokens))
  }

  /** The matrix, flat: every row after the one before it. */
  method CellsFor(holds: seq<seq<string>>, tokens: seq<string>) returns (cells: seq<Cell>)
    ensures cells == Concat(Rows(holds, tokens))
  {
    cells := [];
    for i := 0 to |holds|
      invariant cells == Concat(Rows(holds, tokens)[..i])
    {
      var row := RowCells(i, holds[i], tokens);
      assert row == Rows(holds, tokens)[i];
      assert Rows(holds, tokens)[..i+1][..i] == Rows(holds, tokens)[..i];
      cells := cells + row;
    }
    assert Rows(holds, tokens)[..|holds|] == Rows(holds, tokens);
  }

  /** Cell `i * columns + j` of the matrix is step i, column j. */
  lemma RowMajor(holds: seq<seq<string>>, tokens: seq<string>, i: nat, j: nat)
    requires i < |holds| && j < |tokens|
    ensures |Concat(Rows(holds, tokens))| == |holds| * |tokens|
    ensures 0 <= i * |tokens| + j < |holds| * |tokens|
    ensures Concat(Rows(holds, tokens))[i * |tokens| + j] == Cell(i, tokens[j], CellAt(holds[i], tokens[j]))
  {
    ConcatAt(Rows(holds, tokens), |tokens|, i, j);
  }

  // ----- nothing is hidden

  /** Every direction a step holds, however it is spelled, lights the cell of the direction it points
      in: as part of the diagonal when its mechanism is folded, and outright when it is not. */
  lemma EveryDirectionShows(hold: seq<string>, f: string)
    requires f in hold && PointingOf(f).Some?
    ensures var p := PointingOf(f).value;
      CellAt(hold, MechanismFunction(p.mechanism, p.vertical, p.positive)) ==
        match ShapeOf(hold, p.mechanism) case Some(d) => Part(d) case None => On(false)
  {
    var p := PointingOf(f).value;
    var fn := MechanismFunction(p.mechanism, p.vertical, p.positive);
    CanonicalPoints(p.mechanism, p.vertical, p.positive);
    DirectionIsNoPick(fn);
    assert Matches(f, fn);
  }

  /** A direction cell is lit only by an entry that points that way, and every lit direction cell of
      one mechanism shows the same thing: half of its diagonal, or a plain tick. */
  lemma DirectionCellsAgree(hold: seq<string>, m: Mechanism, vertical: bool, positive: bool)
    ensures var cell := CellAt(hold, MechanismFunction(m, vertical, positive));
      && (cell != Off <==> HoldsDir(Parse(hold), m, vertical, positive))
      && (cell != Off ==> cell == match ShapeOf(hold, m) case Some(d) => Part(d) case None => On(false))
  {
    CanonicalPoints(m, vertical, positive);
    DirectionIsNoPick(MechanismFunction(m, vertical, positive));
    DirectionLitIff(hold, MechanismFunction(m, vertical, positive), m, vertical, positive);
  }

  lemma DirectionLitIff(hold: seq<string>, fn: string, m: Mechanism, vertical: bool, positive: bool)
    requires PointingOf(fn) == Some(Pointing(m, vertical, positive, true))
    ensures NameLit(hold, fn) <==> HoldsDir(Parse(hold), m, vertical, positive)
  {
    ParseContains(hold);
    assert forall f :: Matches(f, fn) <==> Points(PointingOf(f), m, vertical, positive);
    if NameLit(hold, fn) {
      var f :| f in hold && Matches(f, fn);
      assert PointingOf(f) in Parse(hold);
    }
    if HoldsDir(Parse(hold), m, vertical, positive) {
      var p :| p in Parse(hold) && Points(p, m, vertical, positive);
      var f :| f in hold && PointingOf(f) == p;
      assert Matches(f, fn);
    }
  }

  /** A folded mechanism has exactly one lit diagonal cell, an unfolded one has none. */
  lemma OneDiagonalCell(hold: seq<string>, m: Mechanism, d: Diag)
    ensures CellAt(hold, DiagToken(m, d)).On? <==> ShapeOf(hold, m) == Some(d)
    ensures !CellAt(hold, DiagToken(m, d)).On? ==> CellAt(hold, DiagToken(m, d)) == Off
  {
    DiagTokenRoundTrip(m, d);
  }

  /** The cell of a control that points nowhere, a button, is on exactly when the step holds that name, case aside, and
      off otherwise. */
  lemma ButtonCellsAgree(hold: seq<string>, fn: string)
    requires ParseDiagToken(fn) == None && PointingOf(fn) == None
    ensures CellAt(hold, fn) == if exists f :: f in hold && Lower(f) == Lower(fn) then On(false) else Off
  {
    assert forall f :: f in hold ==> (Matches(f, fn) <==> Lower(f) == Lower(fn));
  }

  /** A diagonal cell is marked approximate exactly when some entry of the mechanisms shown under that
      diagonal, this one or another, is not at full deflection. */
  lemma ApproxMeans(hold: seq<string>, m: Mechanism, d: Diag)
    requires ShapeOf(hold, m) == Some(d)
    ensures CellAt(hold, DiagToken(m, d)) == On(true) <==>
      exists f :: f in hold && PointingOf(f).Some? && !PointingOf(f).value.exact
        && ShapeOf(hold, PointingOf(f).value.mechanism) == Some(d)
  {
    var ps := Parse(hold);
    DiagTokenRoundTrip(m, d);
    AllMechanismsAllDiags();
    ParseContains(hold);
    var ms := WithDiag(ps, d, MECHANISMS);
    if !AllExact(ps, ms) {
      var p :| p in ps && OnOneOf(p, ms) && !p.value.exact;
      var f :| f in hold && PointingOf(f) == p;
      assert ShapeOf(hold, PointingOf(f).value.mechanism) == Some(d);
    }
  }
}
