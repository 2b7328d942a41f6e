/** The report a click gives when it makes or breaks a diagonal (`shapeChange`). */
module ShapeReport {
  import opened Common
  import opened Names
  import opened Fold
  import opened Lens

  datatype Note =
    | Made(mechanism: Mechanism, diag: Diag, names: seq<string>)
    | Lost(mechanism: Mechanism, diag: Diag, left: seq<string>)

  // One row of the mechanism-to-diagonal table of a hold, in the order `fold` lists them.
  datatype Entry = Entry(mechanism: Mechanism, diag: Diag, names: seq<string>)

  predicate Within(members: seq<int>, n: nat) {
    forall k :: 0 <= k < |members| ==> 0 <= members[k] < n
  }

  function NamesAt(hold: seq<string>, members: seq<int>, m: Mechanism): seq<string>
    requires Within(members, |hold|)
  {
    if members == [] then []
    else
      var n := |members| - 1;
      NamesAt(hold, members[..n], m) + if OnMechanism(hold[members[n]], m) then [hold[members[n]]] else []
  }

  function EntriesFor(hold: seq<string>, d: Diag, members: seq<int>, ms: seq<Mechanism>): (r: seq<Entry>)
    requires Within(members, |hold|)
    ensures |r| == |ms|
    ensures forall k :: 0 <= k < |ms| ==> r[k] == Entry(ms[k], d, NamesAt(hold, members, ms[k]))
  {
    if ms == [] then []
    else EntriesFor(hold, d, members, ms[..|ms|-1]) + [Entry(ms[|ms|-1], d, NamesAt(hold, members, ms[|ms|-1]))]
  }

  predicate InHold(hold: seq<string>, h: Held) {
    h.DiagHeld? ==> Within(h.members, |hold|)
  }

  function EntriesOf(hold: seq<string>, controls: seq<Held>): seq<Entry>
    requires forall h :: h in controls ==> InHold(hold, h)
  {
    if controls == [] then []
    else
      var h := controls[|controls|-1];
      assert h in controls && InHold(hold, h);
      EntriesOf(hold, controls[..|controls|-1])
      + if h.DiagHeld? then EntriesFor(hold, h.diag, h.members, h.mechanisms) else []
  }

  lemma MembersWithin(ps: Parsed, ms: seq<Mechanism>)
    ensures Within(MembersOf(ps, ms), |ps|)
  {
    var r := MembersOf(ps, ms);
    assert forall k :: 0 <= k < |r| ==> r[k] in r;
  }

  lemma PresentedInHold(hold: seq<string>)
    ensures forall h :: h in Presented(Parse(hold)) ==> InHold(hold, h)
  {
    forall h | h in Presented(Parse(hold)) ensures InHold(hold, h) {
      PresentedMembers(Parse(hold), h);
      if h.DiagHeld? { MembersWithin(Parse(hold), h.mechanisms); }
    }
  }

  function ShapeTable(hold: seq<string>): seq<Entry> {
    PresentedInHold(hold);
    EntriesOf(hold, Presented(Parse(hold)))
  }

  // The table looked up by mechanism.
  function Find(table: seq<Entry>, m: Mechanism): Option<Diag> {
    if table == [] then None
    else if table[|table|-1].mechanism == m then Some(table[|table|-1].diag)
    else Find(table[..|table|-1], m)
  }

  function MadeNotes(was: seq<Entry>, now: seq<Entry>): seq<Note> {
    if now == [] then []
    else
      var e := now[|now|-1];
      MadeNotes(was, now[..|now|-1])
      + if Find(was, e.mechanism) == Some(e.diag) then [] else [Made(e.mechanism, e.diag, e.names)]
  }

  function LostNotes(was: seq<Entry>, now: seq<Entry>, after: seq<string>): seq<Note> {
    if was == [] then []
    else
      var e := was[|was|-1];
      LostNotes(was[..|was|-1], now, after)
      + if Find(now, e.mechanism) == Some(e.diag) then [] else [Lost(e.mechanism, e.diag, Mine(after, e.mechanism))]
  }

  function ShapeChange(before: seq<string>, after: seq<string>): seq<Note> {
    var was, now := ShapeTable(before), ShapeTable(after);
    MadeNotes(was, now) + LostNotes(was, now, after)
  }

  /** The report as the page computes it, walking both tables. No note means nothing is reported. */
  method ReportShapeChange(before: seq<string>, after: seq<string>) returns (said: seq<Note>)
    ensures said == ShapeChange(before, after)
  {
    var was := ReadShapes(before);
    var now := ReadShapes(after);
    said := SayMade(was, now);
    var lost := SayLost(was, now, after);
    said := said + lost;
  }

  method SayMade(was: seq<Entry>, now: seq<Entry>) returns (made: seq<Note>)
    ensures made == MadeNotes(was, now)
  {
    made := [];
    for k := 0 to |now|
      invariant made == MadeNotes(was, now[..k])
    {
      assert now[..k+1][..k] == now[..k];
      if Find(was, now[k].mechanism) == Some(now[k].diag) { continue; }
      made := made + [Made(now[k].mechanism, now[k].diag, now[k].names)];
    }
    assert now[..|now|] == now;
  }

  method SayLost(was: seq<Entry>, now: seq<Entry>, after: seq<string>) returns (lost: seq<Note>)
    ensures lost == LostNotes(was, now, after)
  {
    lost := [];
    for k := 0 to |was|
      invariant lost == LostNotes(was[..k], now, after)
    {
      assert was[..k+1][..k] == was[..k];
      if Find(now, was[k].mechanism) == Some(was[k].diag) { continue; }
      lost := lost + [Lost(was[k].mechanism, was[k].diag, Mine(after, was[k].mechanism))];
    }
    assert was[..|was|] == was;
  }

  method ReadShapes(hold: seq<string>) returns (table: seq<Entry>)
    ensures table == ShapeTable(hold)
  {
    var controls := FoldHold(Parse(hold));
    PresentedInHold(hold);
    table := ReadControls(hold, controls);
  }

  method ReadControls(hold: seq<string>, controls: seq<Held>) returns (table: seq<Entry>)
    requires forall h :: h in controls ==> InHold(hold, h)
    ensures table == EntriesOf(hold, controls)
  {
    table := [];
    for k := 0 to |controls|
      invariant table == EntriesOf(hold, controls[..k])
    {
      assert controls[..k+1][..k] == controls[..k] && controls[k] in controls;
      match controls[k] {
        case PlainHeld(_) =>
        case DiagHeld(d, ms, members, _) => table := table + EntriesFor(hold, d, members, ms);
      }
    }
    assert controls[..|controls|] == controls;
  }

  // ----- what the table and the report say

  // Reading a control's members back on one of its mechanisms gives that mechanism's own entries.
  lemma {:induction false} NamesAtMembers(hold: seq<string>, ms: seq<Mechanism>, m: Mechanism)
    requires m in ms
    ensures Within(MembersOf(Parse(hold), ms), |hold|)
    ensures NamesAt(hold, MembersOf(Parse(hold), ms), m) == Mine(hold, m)
  {
    MembersWithin(Parse(hold), ms);
    if hold != [] {
      var n := |hold| - 1;
      NamesAtMembers(hold[..n], ms, m);
      LastMember(hold, ms);
      LastName(hold, MembersOf(Parse(hold[..n]), ms), ms, m);
    }
  }

  lemma LastMember(hold: seq<string>, ms: seq<Mechanism>)
    requires hold != []
    ensures var n := |hold| - 1;
      MembersOf(Parse(hold), ms)
        == MembersOf(Parse(hold[..n]), ms) + if OnOneOf(PointingOf(hold[n]), ms) then [n] else []
  {
    var n := |hold| - 1;
    assert Parse(hold)[..n] == Parse(hold[..n]);
  }

  lemma LastName(hold: seq<string>, front: seq<int>, ms: seq<Mechanism>, m: Mechanism)
    requires hold != [] && m in ms && Within(front, |hold| - 1)
    ensures var n := |hold| - 1;
      var all := front + if OnOneOf(PointingOf(hold[n]), ms) then [n] else [];
      Within(all, |hold|)
      && NamesAt(hold, all, m) == NamesAt(hold[..n], front, m) + if OnMechanism(hold[n], m) then [hold[n]] else []
  {
    NamesAtPrefix(hold, |hold| - 1, front, m);
    NamesAtAppend(hold, front, |hold| - 1, m);
    assert front + [] == front;
  }

  lemma NamesAtAppend(hold: seq<string>, front: seq<int>, i: int, m: Mechanism)
    requires Within(front, |hold|) && 0 <= i < |hold|
    ensures Within(front + [i], |hold|)
    ensures NamesAt(hold, front + [i], m) == NamesAt(hold, front, m) + if OnMechanism(hold[i], m) then [hold[i]] else []
  {
    assert (front + [i])[..|front|] == front;
  }

  lemma {:induction false} NamesAtPrefix(hold: seq<string>, n: nat, members: seq<int>, m: Mechanism)
    requires n <= |hold| && Within(members, n)
    ensures NamesAt(hold, members, m) == NamesAt(hold[..n], members, m)
  {
    if members != [] {
      NamesAtPrefix(hold, n, members[..|members|-1], m);
    }
  }

  predicate Lists(hold: seq<string>, h: Held, e: Entry)
    requires InHold(hold, h)
  {
    h.DiagHeld? && e.mechanism in h.mechanisms && e.diag == h.diag && e.names == NamesAt(hold, h.members, e.mechanism)
  }

  lemma {:induction false} EntriesMembers(hold: seq<string>, controls: seq<Held>, e: Entry)
    requires forall h :: h in controls ==> InHold(hold, h)
    ensures e in EntriesOf(hold, controls) <==>
      exists h :: h in controls && Lists(hold, h, e)
  {
    if controls != [] {
      var front, h := controls[..|controls|-1], controls[|controls|-1];
      assert controls == front + [h];
      EntriesMembers(hold, front, e);
      assert h in controls && InHold(hold, h);
      if h.DiagHeld? { EntriesForMembers(hold, h.diag, h.members, h.mechanisms, e); }
    }
  }

  lemma EntriesForMembers(hold: seq<string>, d: Diag, members: seq<int>, ms: seq<Mechanism>, e: Entry)
    requires Within(members, |hold|)
    ensures e in EntriesFor(hold, d, members, ms) <==>
      e.mechanism in ms && e.diag == d && e.names == NamesAt(hold, members, e.mechanism)
  {
    var r := EntriesFor(hold, d, members, ms);
    if e in r {
      var k :| 0 <= k < |r| && r[k] == e;
      assert ms[k] in ms;
    }
    if e.mechanism in ms {
      var k :| 0 <= k < |ms| && ms[k] == e.mechanism;
      assert r[k] in r;
    }
  }

  lemma TableMembers(hold: seq<string>, e: Entry)
    ensures e in ShapeTable(hold) <==>
      ShapeOf(hold, e.mechanism) == Some(e.diag) && e.names == Mine(hold, e.mechanism)
  {
    var ps := Parse(hold);
    PresentedInHold(hold);
    AllMechanismsAllDiags();
    EntriesMembers(hold, Presented(ps), e);
    var control := DiagControl(ps, MECHANISMS, e.diag);
    PresentedMembers(ps, control);
    forall h | h in Presented(ps) && h.DiagHeld? && h.diag == e.diag ensures h == control {
      PresentedMembers(ps, h);
    }
    assert e.mechanism in control.mechanisms <==> ShapeOf(hold, e.mechanism) == Some(e.diag);
    if e.mechanism in control.mechanisms { NamesAtMembers(hold, control.mechanisms, e.mechanism); }
  }

  lemma {:induction false} FindIn(table: seq<Entry>, m: Mechanism)
    ensures Find(table, m).Some? ==> exists e :: e in table && e.mechanism == m && e.diag == Find(table, m).value
    ensures Find(table, m).None? ==> forall e :: e in table ==> e.mechanism != m
  {
    if table != [] {
      assert table == table[..|table|-1] + [table[|table|-1]];
      FindIn(table[..|table|-1], m);
    }
  }

  /** The table is the mechanism-to-diagonal map of the hold. */
  lemma TableIsShape(hold: seq<string>, m: Mechanism)
    ensures Find(ShapeTable(hold), m) == ShapeOf(hold, m)
  {
    var table := ShapeTable(hold);
    FindIn(table, m);
    if Find(table, m).Some? {
      var e :| e in table && e.mechanism == m && e.diag == Find(table, m).value;
      TableMembers(hold, e);
    } else if ShapeOf(hold, m).Some? {
      TableMembers(hold, Entry(m, ShapeOf(hold, m).value, Mine(hold, m)));
    }
  }

  lemma {:induction false} MadeMembers(was: seq<Entry>, now: seq<Entry>, n: Note)
    ensures n in MadeNotes(was, now) <==>
      n.Made? && Entry(n.mechanism, n.diag, n.names) in now
      && Find(was, n.mechanism) != Some(n.diag)
  {
    if now != [] {
      assert now == now[..|now|-1] + [now[|now|-1]];
      MadeMembers(was, now[..|now|-1], n);
    }
  }

  lemma {:induction false} LostMembers(was: seq<Entry>, now: seq<Entry>, after: seq<string>, n: Note)
    ensures n in LostNotes(was, now, after) <==>
      n.Lost? && n.left == Mine(after, n.mechanism)
      && (exists e :: e in was && e.mechanism == n.mechanism && e.diag == n.diag)
      && Find(now, n.mechanism) != Some(n.diag)
  {
    if was != [] {
      assert was == was[..|was|-1] + [was[|was|-1]];
      LostMembers(was[..|was|-1], now, after, n);
    }
  }

  /** What is reported: a diagonal made, with the names that make it, for each mechanism shown under
      d after the click and not before; a diagonal lost, with what is left, the other way round. */
  lemma ReportSays(before: seq<string>, after: seq<string>, n: Note)
    ensures n in ShapeChange(before, after) <==>
      if n.Made? then
        ShapeOf(after, n.mechanism) == Some(n.diag) && ShapeOf(before, n.mechanism) != Some(n.diag)
        && n.names == Mine(after, n.mechanism)
      else
        ShapeOf(before, n.mechanism) == Some(n.diag) && ShapeOf(after, n.mechanism) != Some(n.diag)
        && n.left == Mine(after, n.mechanism)
  {
    var was, now := ShapeTable(before), ShapeTable(after);
    MadeMembers(was, now, n);
    LostMembers(was, now, after, n);
    TableIsShape(before, n.mechanism);
    TableIsShape(after, n.mechanism);
    if n.Made? {
      TableMembers(after, Entry(n.mechanism, n.diag, n.names));
    } else {
      TableMembers(before, Entry(n.mechanism, n.diag, Mine(before, n.mechanism)));
      forall e | e in was && e.mechanism == n.mechanism && e.diag == n.diag
        ensures ShapeOf(before, n.mechanism) == Some(n.diag)
      {
        TableMembers(before, e);
      }
    }
  }

  /** Nothing is reported exactly when every mechanism is shown as it was. */
  lemma SilentIffSameShape(before: seq<string>, after: seq<string>)
    ensures ShapeChange(before, after) == [] <==> forall m :: ShapeOf(before, m) == ShapeOf(after, m)
  {
    var notes := ShapeChange(before, after);
    forall m | ShapeOf(before, m) != ShapeOf(after, m) ensures notes != [] {
      if ShapeOf(after, m).Some? {
        ReportSays(before, after, Made(m, ShapeOf(after, m).value, Mine(after, m)));
      } else {
        ReportSays(before, after, Lost(m, ShapeOf(before, m).value, Mine(after, m)));
      }
    }
    if notes != [] {
      assert notes[0] in notes;
      ReportSays(before, after, notes[0]);
    }
  }

  /** A click on a direction column reports on its own mechanism only, and a click on a button never
      reports anything. */
  lemma NameClickReportsLocally(hold: seq<string>, fn: string, n: Note)
    requires n in ShapeChange(hold, ClickName(hold, fn))
    ensures OnMechanism(fn, n.mechanism)
  {
    ReportSays(hold, ClickName(hold, fn), n);
    if !OnMechanism(fn, n.mechanism) { DirectionClickIsLocal(hold, fn, n.mechanism); }
  }
}
