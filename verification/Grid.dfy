/** The piano roll's columns, its group band and its flat matrix of cells. */
module Grid {
  import opened Common
  import opened Names
  import opened Fold
  import opened Lens

  // ----- columns (`macroColumns`)

  datatype RingPos = Card(vertical: bool, positive: bool) | Corner(diag: Diag)

  // Up, up-left, left, down-left, down, down-right, right, up-right.
  const RING: seq<RingPos> := [
    Card(true, true), Corner(UL), Card(false, false), Corner(DL),
    Card(true, false), Corner(DR), Card(false, true), Corner(UR)]

  // The place on a number pad: 8 up, 6 right, 7 up and left.
  function RingDigit(pos: RingPos): int {
    match pos
    case Card(vertical, positive) => 5 + (if vertical then 3 else 1) * if positive then 1 else -1
    case Corner(d) => 5 + (if d.Up() then 3 else -3) + if d.Right() then 1 else -1
  }

  /** A ring walks the gate from up, through the left, down and the right. */
  lemma RingWalksTheGate()
    ensures |RING| == 8
    ensures RingDigit(RING[0]) == 8 && RingDigit(RING[1]) == 7 && RingDigit(RING[2]) == 4 && RingDigit(RING[3]) == 1
    ensures RingDigit(RING[4]) == 2 && RingDigit(RING[5]) == 3 && RingDigit(RING[6]) == 6 && RingDigit(RING[7]) == 9
  {}

  function RingToken(m: Mechanism, pos: RingPos): string {
    match pos
    case Card(vertical, positive) => MechanismFunction(m, vertical, positive)
    case Corner(d) => DiagToken(m, d)
  }

  function RingTokens(m: Mechanism, ring: seq<RingPos>): (r: seq<string>)
    ensures |r| == |ring|
    ensures forall i :: 0 <= i < |ring| ==> r[i] == RingToken(m, ring[i])
  {
    seq(|ring|, i requires 0 <= i < |ring| => RingToken(m, ring[i]))
  }

  predicate HasMechanism(zones: seq<string>, m: Mechanism) {
    exists z :: z in zones && MechanismOf(z) == Some(m)
  }

  // What zone z adds after the zones before it: itself, or its mechanism's ring the first time.
  function Emitted(before: seq<string>, z: string, ring: seq<RingPos>): seq<string> {
    match MechanismOf(z)
    case None => [z]
    case Some(m) => if HasMechanism(before, m) then [] else RingTokens(m, ring)
  }

  function ColumnsOf(zones: seq<string>, ring: seq<RingPos>): seq<string> {
    if zones == [] then []
    else
      var front, z := zones[..|zones|-1], zones[|zones|-1];
      ColumnsOf(front, ring) + Emitted(front, z, ring)
  }

  /** A column: its token, and the part of the pad it stands under. */
  datatype Column = Column(token: string, band: string)

  function MechanismBand(m: Mechanism): string {
    match m case Dpad => "D-PAD" case LStick => "LEFT STICK" case RStick => "RIGHT STICK"
  }

  // `bandOf`
  function BandOf(fn: string): string {
    if fn in ["lt", "lb", "rb", "rt"] then "SHOULDERS"
    else if fn in ["A", "B", "X", "Y"] then "FACE"
    else if fn in ["guide", "back", "start"] then "SYSTEM"
    else if fn == "lthumb" then MechanismBand(LStick)
    else if fn == "rthumb" then MechanismBand(RStick)
    else match MechanismOf(fn) case Some(m) => MechanismBand(m) case None => "SYSTEM"
  }

  // The band a column's own token puts it under.
  function TokenBand(token: string): string {
    match ParseDiagToken(token) case Some(pick) => MechanismBand(pick.mechanism) case None => BandOf(token)
  }

  // Every column has the band its token has.
  ghost predicate Labelled(columns: seq<Column>, tokens: seq<string>, band: string -> string) {
    |columns| == |tokens| && forall j :: 0 <= j < |tokens| ==> columns[j] == Column(tokens[j], band(tokens[j]))
  }

  ghost predicate Named(columns: seq<Column>, tokens: seq<string>) {
    |columns| == |tokens| && forall j :: 0 <= j < |tokens| ==> columns[j].token == tokens[j]
  }

  lemma NamedJoin(a: seq<Column>, s: seq<string>, b: seq<Column>, t: seq<string>)
    requires Named(a, s) && Named(b, t)
    ensures Named(a + b, s + t)
  {}

  // No zone is called what a diagonal's column is.
  predicate NoPicks(zones: seq<string>) { forall z :: z in zones ==> ParseDiagToken(z) == None }

  lemma LabelledJoin(a: seq<Column>, s: seq<string>, b: seq<Column>, t: seq<string>, band: string -> string)
    requires Labelled(a, s, band) && Labelled(b, t, band)
    ensures Labelled(a + b, s + t, band)
  {}

  lemma LabelledAll(columns: seq<Column>, tokens: seq<string>, band: string -> string, name: string)
    requires |columns| == |tokens| && forall t :: t in tokens ==> band(t) == name
    requires forall j :: 0 <= j < |tokens| ==> columns[j] == Column(tokens[j], name)
    ensures Labelled(columns, tokens, band)
  {
    forall j | 0 <= j < |tokens| ensures band(tokens[j]) == name { assert tokens[j] in tokens; }
  }

  // A direction's canonical name is under its mechanism's band, as its diagonal is.
  lemma RingTokenBand(m: Mechanism, pos: RingPos)
    ensures TokenBand(RingToken(m, pos)) == MechanismBand(m)
  {
    RingTokenTells(m, pos);
    if pos.Card? { CardIsNoButton(m, pos.vertical, pos.positive); }
  }

  lemma CardIsNoButton(m: Mechanism, vertical: bool, positive: bool)
    ensures var fn := MechanismFunction(m, vertical, positive);
      fn !in ["lt", "lb", "rb", "rt"] && fn !in ["A", "B", "X", "Y"] && fn !in ["guide", "back", "start"]
      && fn != "lthumb" && fn != "rthumb"
  {
    var fn, at := MechanismFunction(m, vertical, positive), |BaseName(m, vertical)|;
    assert fn[at] == '.' && (at == 2 || at == 4);
  }

  method EmitRing(m: Mechanism, ring: seq<RingPos>) returns (columns: seq<Column>)
    ensures |columns| == |ring|
    ensures forall j :: 0 <= j < |ring| ==> columns[j] == Column(RingToken(m, ring[j]), MechanismBand(m))
  {
    columns := [];
    for i := 0 to |ring|
      invariant |columns| == i
      invariant forall j :: 0 <= j < i ==> columns[j] == Column(RingToken(m, ring[j]), MechanismBand(m))
    {
      columns := columns + [Column(RingToken(m, ring[i]), MechanismBand(m))];
    }
  }

  lemma RingLabelled(m: Mechanism, ring: seq<RingPos>, columns: seq<Column>)
    requires |columns| == |ring|
    requires forall j :: 0 <= j < |ring| ==> columns[j] == Column(RingToken(m, ring[j]), MechanismBand(m))
    ensures Labelled(columns, RingTokens(m, ring), TokenBand)
  {
    var tokens := RingTokens(m, ring);
    forall t | t in tokens ensures TokenBand(t) == MechanismBand(m) {
      var i :| 0 <= i < |tokens| && tokens[i] == t;
      RingTokenBand(m, ring[i]);
    }
    LabelledAll(columns, tokens, TokenBand, MechanismBand(m));
  }

  lemma HasMechanismGrows(zones: seq<string>, k: nat)
    requires k < |zones|
    ensures forall m ::
      HasMechanism(zones[..k+1], m) <==> HasMechanism(zones[..k], m) || MechanismOf(zones[k]) == Some(m)
  {
    assert zones[..k+1] == zones[..k] + [zones[k]];
  }

  // What one zone adds: its own column, or its mechanism's ring, or nothing.
  method EmitZone(before: seq<string>, z: string, ring: seq<RingPos>, rung: bool) returns (more: seq<Column>)
    requires MechanismOf(z).Some? ==> (rung <==> HasMechanism(before, MechanismOf(z).value))
    ensures Named(more, Emitted(before, z, ring))
    ensures ParseDiagToken(z) == None ==> Labelled(more, Emitted(before, z, ring), TokenBand)
  {
    more := [];
    match MechanismOf(z) {
      case None => more := [Column(z, BandOf(z))];
      case Some(m) =>
        if !rung {
          more := EmitRing(m, ring);
          RingLabelled(m, ring, more);
        }
    }
  }

  /** The columns, each under the band of the control or mechanism it belongs to. */
  method Columns(zones: seq<string>, ring: seq<RingPos>) returns (out: seq<Column>)
    ensures Named(out, ColumnsOf(zones, ring))
    ensures NoPicks(zones) ==> Labelled(out, ColumnsOf(zones, ring), TokenBand)
  {
    out := [];
    var rung: seq<Mechanism> := [];
    for k := 0 to |zones|
      invariant Named(out, ColumnsOf(zones[..k], ring))
      invariant NoPicks(zones) ==> Labelled(out, ColumnsOf(zones[..k], ring), TokenBand)
      invariant forall m :: m in rung <==> HasMechanism(zones[..k], m)
    {
      var z := zones[k];
      assert zones[..k+1][..k] == zones[..k] && z in zones;
      HasMechanismGrows(zones, k);
      var met := MechanismOf(z).Some? && MechanismOf(z).value in rung;
      var more := EmitZone(zones[..k], z, ring, met);
      if MechanismOf(z).Some? && !met { rung := rung + [MechanismOf(z).value]; }
      NamedJoin(out, ColumnsOf(zones[..k], ring), more, Emitted(zones[..k], z, ring));
      if NoPicks(zones) {
        LabelledJoin(out, ColumnsOf(zones[..k], ring), more, Emitted(zones[..k], z, ring), TokenBand);
      }
      out := out + more;
    }
    assert zones[..|zones|] == zones;
  }

  // Where a column's token came from: a zone of its own, or a position of a mechanism's ring.
  lemma {:induction false} ColumnSource(zones: seq<string>, ring: seq<RingPos>, t: string)
    ensures t in ColumnsOf(zones, ring) <==>
      (t in zones && MechanismOf(t) == None)
      || exists m, pos :: HasMechanism(zones, m) && pos in ring && t == RingToken(m, pos)
  {
    if zones != [] {
      var front, z := zones[..|zones|-1], zones[|zones|-1];
      assert zones == front + [z];
      ColumnSource(front, ring, t);
      assert forall m :: HasMechanism(zones, m) <==> HasMechanism(front, m) || MechanismOf(z) == Some(m);
      if MechanismOf(z).Some? {
        var m := MechanismOf(z).value;
        var tokens := RingTokens(m, ring);
        if t in tokens {
          var i :| 0 <= i < |tokens| && tokens[i] == t;
          assert ring[i] in ring;
        }
        forall pos | pos in ring && t == RingToken(m, pos) ensures t in tokens {
          var i :| 0 <= i < |ring| && ring[i] == pos;
          assert tokens[i] in tokens;
        }
      }
    }
  }

  // Ring tokens tell their mechanism and position, and never belong to a plain zone.
  lemma RingTokenTells(m: Mechanism, pos: RingPos)
    ensures pos.Card? ==> ParseDiagToken(RingToken(m, pos)) == None
    ensures pos.Card? ==> PointingOf(RingToken(m, pos)) == Some(Pointing(m, pos.vertical, pos.positive, true))
    ensures pos.Card? ==> MechanismOf(RingToken(m, pos)) == Some(m)
    ensures pos.Corner? ==> ParseDiagToken(RingToken(m, pos)) == Some(Pick(m, pos.diag))
  {
    match pos
    case Card(v, p) =>
      CanonicalPoints(m, v, p);
      DirectionIsNoPick(RingToken(m, pos));
      PointsOnItsPrefix(RingToken(m, pos));
    case Corner(d) => DiagTokenRoundTrip(m, d);
  }

  lemma RingTokensDiffer(m: Mechanism, p: RingPos, n: Mechanism, q: RingPos)
    requires RingToken(m, p) == RingToken(n, q)
    ensures m == n && p == q
  {
    RingTokenTells(m, p);
    RingTokenTells(n, q);
  }

  ghost predicate ZoneTable(zones: seq<string>) {
    Distinct(zones) && NoPicks(zones)
  }

  // What a zone adds has not been there before.
  lemma EmittedIsNew(front: seq<string>, z: string, ring: seq<RingPos>, t: string)
    requires ZoneTable(front + [z]) && t in Emitted(front, z, ring)
    ensures t !in ColumnsOf(front, ring)
  {
    var zones := front + [z];
    ColumnSource(front, ring, t);
    assert zones[|front|] == z && z in zones;
    assert forall i :: 0 <= i < |front| ==> zones[i] == front[i] && zones[i] in zones;
    if MechanismOf(z).None? {
      forall m, pos | HasMechanism(front, m) && pos in ring && t == RingToken(m, pos) ensures false {
        RingTokenTells(m, pos);
      }
    } else {
      var n, tokens := MechanismOf(z).value, RingTokens(MechanismOf(z).value, ring);
      var i :| 0 <= i < |tokens| && tokens[i] == t;
      RingTokenTells(n, ring[i]);
      forall m, pos | HasMechanism(front, m) && pos in ring && t == RingToken(m, pos) ensures false {
        RingTokensDiffer(m, pos, n, ring[i]);
      }
    }
  }

  /** Tokens are pairwise distinct. */
  lemma {:induction false} ColumnsDistinct(zones: seq<string>, ring: seq<RingPos>)
    requires ZoneTable(zones) && Distinct(ring)
    ensures Distinct(ColumnsOf(zones, ring))
  {
    if zones != [] {
      var front, z := zones[..|zones|-1], zones[|zones|-1];
      assert zones == front + [z];
      assert forall y :: y in front ==> y in zones;
      ColumnsDistinct(front, ring);
      var had, more := ColumnsOf(front, ring), Emitted(front, z, ring);
      forall t | t in more ensures t !in had { EmittedIsNew(front, z, ring, t); }
      assert Distinct(more) by {
        if MechanismOf(z).Some? && !HasMechanism(front, MechanismOf(z).value) {
          forall i, j | 0 <= i < j < |ring| ensures more[i] != more[j] {
            if more[i] == more[j] { RingTokensDiffer(MechanismOf(z).value, ring[i], MechanismOf(z).value, ring[j]); }
          }
        }
      }
      forall i, j | 0 <= i < |had| && 0 <= j < |more| ensures had[i] != more[j] {
        assert had[i] in had && more[j] in more;
      }
    }
  }

  function PlainZones(names: seq<string>): seq<string> {
    if names == [] then []
    else PlainZones(names[..|names|-1]) + if MechanismOf(names[|names|-1]).None? then [names[|names|-1]] else []
  }

  lemma {:induction false} PrefixColumns(zones: seq<string>, ring: seq<RingPos>, k: nat)
    requires k <= |zones|
    ensures ColumnsOf(zones[..k], ring) <= ColumnsOf(zones, ring)
    decreases |zones|
  {
    if k < |zones| {
      var front := zones[..|zones|-1];
      PrefixColumns(front, ring, k);
      assert front[..k] == zones[..k];
    } else {
      assert zones[..k] == zones;
    }
  }

  /** A mechanism's whole ring stands where its first zone is. */
  lemma RingAtFirstZone(zones: seq<string>, ring: seq<RingPos>, k: nat, m: Mechanism)
    requires k < |zones| && MechanismOf(zones[k]) == Some(m) && !HasMechanism(zones[..k], m)
    ensures ColumnsOf(zones[..k], ring) + RingTokens(m, ring) <= ColumnsOf(zones, ring)
  {
    PrefixColumns(zones, ring, k + 1);
    assert zones[..k+1][..k] == zones[..k];
  }

  predicate IsOwn(token: string) { ParseDiagToken(token).None? && MechanismOf(token).None? }

  function Own(): string -> bool { t => IsOwn(t) }

  // Keeping only the columns that are zones of their own.
  function OwnColumns(columns: seq<string>): seq<string> { Filter(Own(), columns) }

  lemma OwnColumnsOfRing(m: Mechanism, ring: seq<RingPos>)
    ensures OwnColumns(RingTokens(m, ring)) == []
  {
    var tokens := RingTokens(m, ring);
    forall t | t in tokens ensures !Own()(t) {
      var i :| 0 <= i < |tokens| && tokens[i] == t;
      RingTokenTells(m, ring[i]);
    }
    FilterAll(Own(), tokens);
  }

  /** Every control that is no direction keeps its own column, in the table's order. */
  lemma {:induction false} PlainZonesKeepOrder(zones: seq<string>, ring: seq<RingPos>)
    requires ZoneTable(zones)
    ensures OwnColumns(ColumnsOf(zones, ring)) == PlainZones(zones)
  {
    if zones != [] {
      var front, z := zones[..|zones|-1], zones[|zones|-1];
      assert zones == front + [z] && z in zones;
      assert forall y :: y in front ==> y in zones;
      PlainZonesKeepOrder(front, ring);
      FilterJoin(Own(), ColumnsOf(front, ring), Emitted(front, z, ring));
      if MechanismOf(z).None? {
        FilterOne(Own(), z);
      } else {
        OwnColumnsOfRing(MechanismOf(z).value, ring);
      }
    }
  }

  // ----- the group band (`macroGroupsFor`)

  datatype Run = Run(band: string, span: nat)

  function Repeated(n: nat, band: string): (r: seq<string>)
    ensures |r| == n && forall i :: 0 <= i < n ==> r[i] == band
  {
    seq(n, _ => band)
  }

  function Expand(runs: seq<Run>): seq<string> {
    if runs == [] then []
    else Expand(runs[..|runs|-1]) + Repeated(runs[|runs|-1].span, runs[|runs|-1].band)
  }

  ghost predicate Banded(runs: seq<Run>) {
    (forall i :: 0 <= i < |runs| ==> runs[i].span > 0)
    && forall i, j :: 0 <= i && i + 1 == j < |runs| ==> runs[i].band != runs[j].band
  }

  lemma ExpandMore(runs: seq<Run>, r: Run)
    ensures Expand(runs + [r]) == Expand(runs) + Repeated(r.span, r.band)
  {
    assert (runs + [r])[..|runs|] == runs;
  }

  lemma ExpandLonger(front: seq<Run>, r: Run)
    ensures Expand(front + [r.(span := r.span + 1)]) == Expand(front + [r]) + [r.band]
  {
    ExpandMore(front, r);
    ExpandMore(front, r.(span := r.span + 1));
    assert Repeated(r.span + 1, r.band) == Repeated(r.span, r.band) + [r.band];
  }

  // One more column of the band: a longer last run, or a new one.
  method Extend(runs: seq<Run>, band: string) returns (more: seq<Run>)
    requires Banded(runs)
    ensures Expand(more) == Expand(runs) + [band] && Banded(more)
  {
    var n := |runs| - 1;
    if n >= 0 && runs[n].band == band {
      LongerLast(runs);
      more := runs[..n] + [runs[n].(span := runs[n].span + 1)];
    } else {
      NewLast(runs, band);
      more := runs + [Run(band, 1)];
    }
  }

  lemma NewLast(runs: seq<Run>, band: string)
    requires Banded(runs) && (runs != [] ==> runs[|runs|-1].band != band)
    ensures Expand(runs + [Run(band, 1)]) == Expand(runs) + [band] && Banded(runs + [Run(band, 1)])
  {
    ExpandMore(runs, Run(band, 1));
    RepeatedOnce(band);
    BandedMore(runs, Run(band, 1));
  }

  lemma RepeatedOnce(band: string)
    ensures Repeated(1, band) == [band]
  {}

  lemma BandedMore(runs: seq<Run>, r: Run)
    requires Banded(runs) && r.span > 0 && (runs != [] ==> runs[|runs|-1].band != r.band)
    ensures Banded(runs + [r])
  {}

  lemma LongerLast(runs: seq<Run>)
    requires runs != [] && Banded(runs)
    ensures var n := |runs| - 1;
      var more := runs[..n] + [runs[n].(span := runs[n].span + 1)];
      Expand(more) == Expand(runs) + [runs[n].band] && Banded(more)
  {
    var n := |runs| - 1;
    assert runs == runs[..n] + [runs[n]];
    ExpandLonger(runs[..n], runs[n]);
  }

  function Bands(columns: seq<Column>): (r: seq<string>)
    ensures |r| == |columns| && forall j :: 0 <= j < |r| ==> r[j] == columns[j].band
  {
    seq(|columns|, j requires 0 <= j < |columns| => columns[j].band)
  }

  method Groups(columns: seq<Column>) returns (runs: seq<Run>)
    ensures Expand(runs) == Bands(columns) && Banded(runs)
  {
    var bands := Bands(columns);
    runs := [];
    for k := 0 to |columns|
      invariant Expand(runs) == bands[..k] && Banded(runs)
    {
      assert bands[..k+1] == bands[..k] + [columns[k].band];
      runs := Extend(runs, columns[k].band);
    }
    assert bands[..|bands|] == bands;
  }

  /** The group band over the page's columns: run by run it spells out the band of every column. */
  method MacroGroups(zones: seq<string>, ring: seq<RingPos>) returns (runs: seq<Run>)
    ensures Banded(runs) && |Expand(runs)| == |ColumnsOf(zones, ring)|
    ensures NoPicks(zones) ==>
      forall j :: 0 <= j < |Expand(runs)| ==> Expand(runs)[j] == TokenBand(ColumnsOf(zones, ring)[j])
  {
    var columns := Columns(zones, ring);
    runs := Groups(columns);
  }

  lemma ExpandEnds(runs: seq<Run>)
    requires runs != [] && Banded(runs)
    ensures |Expand(runs)| >= runs[|runs|-1].span
    ensures forall i :: |Expand(runs)| - runs[|runs|-1].span <= i < |Expand(runs)| ==>
      Expand(runs)[i] == runs[|runs|-1].band
    ensures Expand(runs)[..|Expand(runs)| - runs[|runs|-1].span] == Expand(runs[..|runs|-1])
    ensures |runs| > 1 ==> |Expand(runs)| > runs[|runs|-1].span
    ensures |runs| > 1 ==> Expand(runs)[|Expand(runs)| - runs[|runs|-1].span - 1] == runs[|runs|-2].band
  {
    if |runs| > 1 {
      var front := runs[..|runs|-1];
      ExpandEnds(front);
    }
  }

  /** The band is determined by its expansion: no other runs with adjacent labels different give it. */
  lemma {:induction false} BandUnique(a: seq<Run>, b: seq<Run>)
    requires Banded(a) && Banded(b) && Expand(a) == Expand(b)
    ensures a == b
  {
    if a == [] {
      if b != [] { ExpandEnds(b); }
    } else if b == [] {
      ExpandEnds(a);
    } else {
      ExpandEnds(a);
      ExpandEnds(b);
      var s, i, j := Expand(a), |a| - 1, |b| - 1;
      assert s[|s| - 1] == a[i].band == b[j].band;
      assert i > 0 ==> s[|s| - a[i].span - 1] == a[i-1].band;
      assert j > 0 ==> s[|s| - b[j].span - 1] == b[j-1].band;
      assert i == 0 ==> Expand(a[..i]) == [];
      assert j == 0 ==> Expand(b[..j]) == [];
      assert a[i].span == b[j].span;
      BandUnique(a[..i], b[..j]);
      assert a == a[..i] + [a[i]] && b == b[..j] + [b[j]];
    }
  }
}
