/** The matrix over the page's own columns: what a step holds is on screen. */
module PageMatrix {
  import opened Common
  import opened Names
  import opened Fold
  import opened Lens
  import opened Grid
  import opened Matrix

  function PageColumns(zones: seq<string>): seq<string> { ColumnsOf(zones, RING) }

  // `macroCellsFor`, over `macroColumns`.
  function PageCells(holds: seq<seq<string>>, zones: seq<string>): seq<Cell> {
    Concat(Rows(holds, PageColumns(zones)))
  }

  // Step i, column j.
  function CellIn(holds: seq<seq<string>>, zones: seq<string>, i: nat, j: nat): (c: Cell)
    requires i < |holds| && j < |PageColumns(zones)|
    ensures var n := |PageColumns(zones)|;
      0 <= i * n + j < |PageCells(holds, zones)| && c == PageCells(holds, zones)[i * n + j]
    ensures c == Cell(i, PageColumns(zones)[j], CellAt(holds[i], PageColumns(zones)[j]))
  {
    var tokens := PageColumns(zones);
    RowMajor(holds, tokens, i, j);
    PageCells(holds, zones)[i * |tokens| + j]
  }

  lemma RingIsWhole(pos: RingPos)
    ensures pos in RING
  {
    assert RING[0] == Card(true, true) && RING[4] == Card(true, false);
    assert RING[2] == Card(false, false) && RING[6] == Card(false, true);
    assert RING[1] == Corner(UL) && RING[3] == Corner(DL) && RING[5] == Corner(DR) && RING[7] == Corner(UR);
    match pos
    case Card(true, true) => assert RING[0] == pos;
    case Card(true, false) => assert RING[4] == pos;
    case Card(false, false) => assert RING[2] == pos;
    case Card(false, true) => assert RING[6] == pos;
    case Corner(UL) => assert RING[1] == pos;
    case Corner(DL) => assert RING[3] == pos;
    case Corner(DR) => assert RING[5] == pos;
    case Corner(UR) => assert RING[7] == pos;
  }

  lemma RingIsDistinct()
    ensures Distinct(RING)
  {}

  /** A mechanism of the pad has a column for each of its eight positions, and just one. */
  lemma OneColumnEach(zones: seq<string>, m: Mechanism, pos: RingPos)
    requires HasMechanism(zones, m)
    ensures RingToken(m, pos) in PageColumns(zones)
    ensures ZoneTable(zones) ==> Distinct(PageColumns(zones))
  {
    RingIsWhole(pos);
    ColumnSource(zones, RING, RingToken(m, pos));
    if ZoneTable(zones) {
      RingIsDistinct();
      ColumnsDistinct(zones, RING);
    }
  }

  lemma ColumnFor(zones: seq<string>, m: Mechanism, pos: RingPos) returns (j: nat)
    requires HasMechanism(zones, m)
    ensures j < |PageColumns(zones)| && PageColumns(zones)[j] == RingToken(m, pos)
  {
    OneColumnEach(zones, m, pos);
    var tokens := PageColumns(zones);
    j :| 0 <= j < |tokens| && tokens[j] == RingToken(m, pos);
  }

  // What a lit direction cell shows: half of the diagonal its mechanism folds to, or a plain tick.
  function LitAs(hold: seq<string>, m: Mechanism): CellState {
    match ShapeOf(hold, m) case Some(d) => Part(d) case None => On(false)
  }

  /** THE LENS HIDES NOTHING. Whatever direction a step holds, in whatever spelling, there is a column of the page whose
      cell in that step's row is lit for it: as part of its diagonal when its mechanism is folded, and outright when
      it is not. */
  lemma MatrixHidesNothing(holds: seq<seq<string>>, zones: seq<string>, i: nat, f: string)
    requires i < |holds| && f in holds[i] && PointingOf(f).Some?
    requires HasMechanism(zones, PointingOf(f).value.mechanism)
    ensures var p := PointingOf(f).value;
      exists j: nat :: j < |PageColumns(zones)|
        && PageColumns(zones)[j] == MechanismFunction(p.mechanism, p.vertical, p.positive)
        && CellIn(holds, zones, i, j).state == LitAs(holds[i], p.mechanism)
  {
    var p := PointingOf(f).value;
    var j := ColumnFor(zones, p.mechanism, Card(p.vertical, p.positive));
    EveryDirectionShows(holds[i], f);
    assert CellIn(holds, zones, i, j).state == LitAs(holds[i], p.mechanism);
  }

  /** And shows nothing that is not there: a direction's cell is lit exactly when the step holds that direction, and all
      lit ones of a mechanism show the same. */
  lemma MatrixDirections(holds: seq<seq<string>>, zones: seq<string>, i: nat, j: nat, m: Mechanism, v: bool, p: bool)
    requires i < |holds| && j < |PageColumns(zones)| && PageColumns(zones)[j] == MechanismFunction(m, v, p)
    ensures var state := CellIn(holds, zones, i, j).state;
      if HoldsDir(Parse(holds[i]), m, v, p) then state == LitAs(holds[i], m) else state == Off
  {
    DirectionCellsAgree(holds[i], m, v, p);
  }

  /** Every control of the pad that is no direction has a column, and its cell in a step's row is on exactly when
      the step holds that name, case aside. */
  lemma MatrixButtons(holds: seq<seq<string>>, zones: seq<string>, i: nat, z: string)
    requires i < |holds| && z in zones && MechanismOf(z) == None && ParseDiagToken(z) == None
    ensures z in PageColumns(zones)
    ensures forall j: nat :: j < |PageColumns(zones)| && PageColumns(zones)[j] == z ==>
      CellIn(holds, zones, i, j).state == if exists f :: f in holds[i] && Lower(f) == Lower(z) then On(false) else Off
  {
    ColumnSource(zones, RING, z);
    if PointingOf(z).Some? { PointsOnItsPrefix(z); }
    ButtonCellsAgree(holds[i], z);
  }

  // Column j is a diagonal of m, and lit in row i.
  ghost predicate DiagonalOn(holds: seq<seq<string>>, zones: seq<string>, i: nat, m: Mechanism, j: nat)
    requires i < |holds|
  {
    j < |PageColumns(zones)| && CellIn(holds, zones, i, j).state.On?
    && exists d :: PageColumns(zones)[j] == DiagToken(m, d)
  }

  lemma DiagonalOnIs(holds: seq<seq<string>>, zones: seq<string>, i: nat, m: Mechanism, j: nat)
    requires i < |holds|
    ensures DiagonalOn(holds, zones, i, m, j) <==>
      j < |PageColumns(zones)| && ShapeOf(holds[i], m).Some?
      && PageColumns(zones)[j] == DiagToken(m, ShapeOf(holds[i], m).value)
  {
    if j < |PageColumns(zones)| {
      forall d | PageColumns(zones)[j] == DiagToken(m, d)
        ensures CellIn(holds, zones, i, j).state.On? <==> ShapeOf(holds[i], m) == Some(d)
      {
        OneDiagonalCell(holds[i], m, d);
      }
    }
  }

  /** In each row of the page's matrix a folded mechanism has exactly one diagonal column lit, the one of its shape, and
      an unfolded mechanism none. */
  lemma MatrixOneDiagonal(holds: seq<seq<string>>, zones: seq<string>, i: nat, m: Mechanism)
    requires ZoneTable(zones) && HasMechanism(zones, m) && i < |holds|
    ensures ShapeOf(holds[i], m).Some? <==> exists j: nat :: DiagonalOn(holds, zones, i, m, j)
    ensures forall j: nat, k: nat ::
      DiagonalOn(holds, zones, i, m, j) && DiagonalOn(holds, zones, i, m, k) ==> j == k
    ensures forall j: nat :: DiagonalOn(holds, zones, i, m, j) ==>
      j < |PageColumns(zones)| && PageColumns(zones)[j] == DiagToken(m, ShapeOf(holds[i], m).GetOr(UL))
  {
    forall j: nat ensures DiagonalOn(holds, zones, i, m, j) <==>
        j < |PageColumns(zones)| && ShapeOf(holds[i], m).Some?
        && PageColumns(zones)[j] == DiagToken(m, ShapeOf(holds[i], m).value)
    {
      DiagonalOnIs(holds, zones, i, m, j);
    }
    if ShapeOf(holds[i], m).Some? {
      var d := ShapeOf(holds[i], m).value;
      OneColumnEach(zones, m, Corner(d));
      var j := ColumnFor(zones, m, Corner(d));
      assert DiagonalOn(holds, zones, i, m, j);
    }
  }
}
