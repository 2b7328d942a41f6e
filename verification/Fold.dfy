/** How a hold is presented: opposite-axis directions of one mechanism read as one diagonal.
    Everything here reads a hold already parsed, position by position, into where it points. */
module Fold {
  import opened Common
  import opened Names

  type Parsed = seq<Option<Pointing>>

  const MECHANISMS: seq<Mechanism> := [Dpad, LStick, RStick]
  const DIAGS: seq<Diag> := [UL, UR, DL, DR]

  /** One presented control. `members` and `member` are indices into the hold. */
  datatype Held =
    | DiagHeld(diag: Diag, mechanisms: seq<Mechanism>, members: seq<int>, exact: bool)
    | PlainHeld(member: int)
  {
    predicate Covers(i: int) {
      match this
      case DiagHeld(_, _, members, _) => i in members
      case PlainHeld(member) => i == member
    }
  }

  // ----- what a hold says about one mechanism

  predicate On(f: Option<Pointing>, m: Mechanism) {
    f.Some? && f.value.mechanism == m
  }

  predicate Points(f: Option<Pointing>, m: Mechanism, vertical: bool, positive: bool) {
    On(f, m) && f.value.vertical == vertical && f.value.positive == positive
  }

  predicate HoldsDir(hold: Parsed, m: Mechanism, vertical: bool, positive: bool) {
    exists f :: f in hold && Points(f, m, vertical, positive)
  }

  /** The diagonal m is presented under: both axes are held and neither contradicts itself. */
  function Shape(hold: Parsed, m: Mechanism): Option<Diag> {
    var up, down := HoldsDir(hold, m, true, true), HoldsDir(hold, m, true, false);
    var right, left := HoldsDir(hold, m, false, true), HoldsDir(hold, m, false, false);
    if up != down && right != left then Some(DiagFromHalves(up, right)) else None
  }

  predicate OnOneOf(f: Option<Pointing>, ms: seq<Mechanism>) {
    f.Some? && f.value.mechanism in ms
  }

  function MembersOf(hold: Parsed, ms: seq<Mechanism>): (r: seq<int>)
    ensures Ascending(r)
    ensures forall i :: i in r <==> 0 <= i < |hold| && OnOneOf(hold[i], ms)
  {
    if hold == [] then []
    else
      var n := |hold| - 1;
      var front := MembersOf(hold[..n], ms);
      AscendingAppend(front, n);
      if OnOneOf(hold[n], ms) then front + [n] else front
  }

  predicate AllExact(hold: Parsed, ms: seq<Mechanism>) {
    forall f :: f in hold && OnOneOf(f, ms) ==> f.value.exact
  }

  predicate Consumed(hold: Parsed, i: int)
    requires 0 <= i < |hold|
  {
    hold[i].Some? && Shape(hold, hold[i].value.mechanism).Some?
  }

  // ----- the presentation

  function WithDiag(hold: Parsed, d: Diag, ms: seq<Mechanism>): (r: seq<Mechanism>)
    ensures forall m :: m in r <==> m in ms && Shape(hold, m) == Some(d)
  {
    if ms == [] then []
    else
      var m := ms[|ms|-1];
      WithDiag(hold, d, ms[..|ms|-1]) + if Shape(hold, m) == Some(d) then [m] else []
  }

  function DiagControl(hold: Parsed, all: seq<Mechanism>, d: Diag): Held {
    var ms := WithDiag(hold, d, all);
    DiagHeld(d, ms, MembersOf(hold, ms), AllExact(hold, ms))
  }

  function DiagControls(hold: Parsed, all: seq<Mechanism>, ds: seq<Diag>): seq<Held> {
    if ds == [] then []
    else
      var control := DiagControl(hold, all, ds[|ds|-1]);
      DiagControls(hold, all, ds[..|ds|-1]) + if control.mechanisms == [] then [] else [control]
  }

  function PlainControls(hold: Parsed, n: nat): seq<Held>
    requires n <= |hold|
  {
    if n == 0 then []
    else PlainControls(hold, n - 1) + if Consumed(hold, n - 1) then [] else [PlainHeld(n - 1)]
  }

  function Presented(hold: Parsed): seq<Held> {
    DiagControls(hold, MECHANISMS, DIAGS) + PlainControls(hold, |hold|)
  }

  // ----- the page's own computation of it

  datatype Bucket = Bucket(diag: Diag, mechanism: Mechanism, members: seq<int>, exact: bool)

  function BucketFor(hold: Parsed, m: Mechanism): Bucket
    requires Shape(hold, m).Some?
  {
    Bucket(Shape(hold, m).value, m, MembersOf(hold, [m]), AllExact(hold, [m]))
  }

  // The mechanisms of ms that fold to some diagonal, in order.
  function Folding(hold: Parsed, ms: seq<Mechanism>): (r: seq<Mechanism>)
    ensures forall m :: m in r <==> m in ms && Shape(hold, m).Some?
    ensures Distinct(ms) ==> Distinct(r)
  {
    if ms == [] then []
    else
      var m := ms[|ms|-1];
      Folding(hold, ms[..|ms|-1]) + if Shape(hold, m).Some? then [m] else []
  }

  lemma {:induction false} WithDiagOfFolding(hold: Parsed, d: Diag, ms: seq<Mechanism>)
    ensures WithDiag(hold, d, Folding(hold, ms)) == WithDiag(hold, d, ms)
  {
    if ms != [] {
      var front, m := ms[..|ms|-1], ms[|ms|-1];
      WithDiagOfFolding(hold, d, front);
      var folding := Folding(hold, ms);
      if Shape(hold, m).Some? {
        assert folding[..|folding|-1] == Folding(hold, front);
      } else {
        assert folding == Folding(hold, front);
      }
    }
  }

  method Members(hold: Parsed, m: Mechanism) returns (members: seq<int>)
    ensures members == MembersOf(hold, [m])
  {
    members := [];
    for i := 0 to |hold|
      invariant members == MembersOf(hold[..i], [m])
    {
      assert hold[..i+1][..i] == hold[..i];
      if hold[i].Some? && hold[i].value.mechanism == m {
        members := members + [i];
      }
    }
    assert hold[..|hold|] == hold;
  }

  // One axis of one bucket: the first sign met, and whether a later one contradicted it.
  ghost predicate AxisRead(seen: Parsed, m: Mechanism, vertical: bool, sign: Option<bool>, clash: bool) {
    var plus, minus := HoldsDir(seen, m, vertical, true), HoldsDir(seen, m, vertical, false);
    (sign.None? <==> !plus && !minus)
    && (sign.Some? ==> HoldsDir(seen, m, vertical, sign.value))
    && (clash <==> plus && minus)
  }

  lemma HoldsDirGrows(seen: Parsed, f: Option<Pointing>, m: Mechanism, v: bool, p: bool)
    ensures HoldsDir(seen + [f], m, v, p) <==> HoldsDir(seen, m, v, p) || Points(f, m, v, p)
  {
    assert forall g :: g in seen + [f] <==> g in seen || g == f;
  }

  // Reading one more member moves its own axis and leaves the other alone.
  lemma AxisStep(seen: Parsed, f: Option<Pointing>, m: Mechanism, vertical: bool, sign: Option<bool>, clash: bool)
    requires On(f, m) && AxisRead(seen, m, vertical, sign, clash)
    ensures f.value.vertical != vertical ==> AxisRead(seen + [f], m, vertical, sign, clash)
    ensures f.value.vertical == vertical && sign.None? ==>
      AxisRead(seen + [f], m, vertical, Some(f.value.positive), false)
    ensures f.value.vertical == vertical && sign.Some? ==>
      AxisRead(seen + [f], m, vertical, sign, clash || sign.value != f.value.positive)
  {
    HoldsDirGrows(seen, f, m, vertical, true);
    HoldsDirGrows(seen, f, m, vertical, false);
  }

  lemma ExactGrows(seen: Parsed, f: Option<Pointing>, m: Mechanism)
    requires On(f, m)
    ensures AllExact(seen + [f], [m]) <==> AllExact(seen, [m]) && f.value.exact
  {
    assert forall g :: g in seen + [f] <==> g in seen || g == f;
  }

  // Every member read so far is in the hold, on m, and accounted for.
  ghost predicate ReadUpTo(hold: Parsed, m: Mechanism, members: seq<int>, seen: Parsed, k: int)
    requires members == MembersOf(hold, [m]) && k <= |members|
  {
    (forall f :: f in seen ==> f in hold && On(f, m))
    && forall j :: 0 <= j < k ==> members[j] in members && hold[members[j]] in seen
  }

  lemma SeenGrows(seen: Parsed, f: Option<Pointing>)
    ensures forall g :: g in seen + [f] <==> g in seen || g == f
  {}

  ghost predicate Clash(seen: Parsed, m: Mechanism, vertical: bool) {
    HoldsDir(seen, m, vertical, true) && HoldsDir(seen, m, vertical, false)
  }

  // What has been read of a bucket so far: a sign for each axis, and whether one was contradicted.
  ghost predicate PolarityRead(
      seen: Parsed, m: Mechanism, vertical: Option<bool>, horizontal: Option<bool>, split: bool, exact: bool)
  {
    AxisRead(seen, m, true, vertical, Clash(seen, m, true))
    && AxisRead(seen, m, false, horizontal, Clash(seen, m, false))
    && (split <==> Clash(seen, m, true) || Clash(seen, m, false))
    && (exact <==> AllExact(seen, [m]))
  }

  lemma PolarityStep(seen: Parsed, f: Option<Pointing>, m: Mechanism,
                     vertical: Option<bool>, horizontal: Option<bool>, split: bool, exact: bool)
    requires On(f, m) && PolarityRead(seen, m, vertical, horizontal, split, exact)
    ensures var p, more := f.value, seen + [f];
      if p.vertical then
        PolarityRead(more, m, Some(vertical.GetOr(p.positive)), horizontal,
          split || (vertical.Some? && vertical.value != p.positive), exact && p.exact)
      else
        PolarityRead(more, m, vertical, Some(horizontal.GetOr(p.positive)),
          split || (horizontal.Some? && horizontal.value != p.positive), exact && p.exact)
  {
    AxisStep(seen, f, m, true, vertical, Clash(seen, m, true));
    AxisStep(seen, f, m, false, horizontal, Clash(seen, m, false));
    ExactGrows(seen, f, m);
  }

  lemma ReadNext(hold: Parsed, m: Mechanism, members: seq<int>, seen: Parsed, k: int)
    requires members == MembersOf(hold, [m]) && 0 <= k < |members| && ReadUpTo(hold, m, members, seen, k)
    ensures members[k] in members && On(hold[members[k]], m)
    ensures ReadUpTo(hold, m, members, seen + [hold[members[k]]], k + 1)
  {
    assert members[k] in members;
    SeenGrows(seen, hold[members[k]]);
  }

  // One more member: the first sign met on an axis stands, and a later one that differs splits the bucket.
  method ReadMember(m: Mechanism, ghost seen: Parsed, f: Option<Pointing>,
                    vertical: Option<bool>, horizontal: Option<bool>, split: bool, exact: bool)
    returns (v: Option<bool>, h: Option<bool>, torn: bool, full: bool)
    requires On(f, m) && PolarityRead(seen, m, vertical, horizontal, split, exact)
    ensures PolarityRead(seen + [f], m, v, h, torn, full)
  {
    PolarityStep(seen, f, m, vertical, horizontal, split, exact);
    v, h, torn, full := vertical, horizontal, split, exact && f.value.exact;
    if f.value.vertical {
      if v.None? { v := Some(f.value.positive); }
      else if v.value != f.value.positive { torn := true; }
    } else {
      if h.None? { h := Some(f.value.positive); }
      else if h.value != f.value.positive { torn := true; }
    }
  }

  lemma PolarityDecides(hold: Parsed, m: Mechanism, seen: Parsed,
                        vertical: Option<bool>, horizontal: Option<bool>, split: bool, exact: bool)
    requires PolarityRead(seen, m, vertical, horizontal, split, exact)
    requires ReadUpTo(hold, m, MembersOf(hold, [m]), seen, |MembersOf(hold, [m])|)
    ensures Shape(hold, m) ==
      if vertical.None? || horizontal.None? || split then None
      else Some(DiagFromHalves(vertical.value, horizontal.value))
    ensures exact <==> AllExact(hold, [m])
  {
    MembersDecide(hold, m, seen);
  }

  method Polarity(hold: Parsed, m: Mechanism, members: seq<int>)
    returns (vertical: Option<bool>, horizontal: Option<bool>, split: bool, exact: bool)
    requires members == MembersOf(hold, [m])
    ensures Shape(hold, m) ==
      if vertical.None? || horizontal.None? || split then None
      else Some(DiagFromHalves(vertical.value, horizontal.value))
    ensures exact <==> AllExact(hold, [m])
  {
    vertical, horizontal, split, exact := None, None, false, true;
    ghost var seen: Parsed := [];
    for k := 0 to |members|
      invariant PolarityRead(seen, m, vertical, horizontal, split, exact)
      invariant ReadUpTo(hold, m, members, seen, k)
    {
      ReadNext(hold, m, members, seen, k);
      var f := hold[members[k]];
      vertical, horizontal, split, exact := ReadMember(m, seen, f, vertical, horizontal, split, exact);
      seen := seen + [f];
    }
    PolarityDecides(hold, m, seen, vertical, horizontal, split, exact);
  }

  // Reading only a mechanism's members says all there is to say about it.
  lemma MembersDecide(hold: Parsed, m: Mechanism, seen: Parsed)
    requires forall f :: f in seen ==> f in hold && On(f, m)
    requires forall i :: i in MembersOf(hold, [m]) ==> hold[i] in seen
    ensures forall v, p :: HoldsDir(seen, m, v, p) <==> HoldsDir(hold, m, v, p)
    ensures AllExact(seen, [m]) <==> AllExact(hold, [m])
  {
    forall f | f in hold && On(f, m) ensures f in seen {
      var i :| 0 <= i < |hold| && hold[i] == f;
      assert i in MembersOf(hold, [m]);
    }
  }

  ghost predicate IsFoldedFor(hold: Parsed, folded: seq<Bucket>, ms: seq<Mechanism>)
    requires forall m :: m in ms ==> Shape(hold, m).Some?
  {
    |folded| == |ms| && forall i :: 0 <= i < |ms| ==> folded[i] == BucketFor(hold, ms[i])
  }

  ghost predicate IsFolded(hold: Parsed, folded: seq<Bucket>, all: seq<Mechanism>) {
    IsFoldedFor(hold, folded, Folding(hold, all))
  }

  // Every index of the hold that points on one of the mechanisms, once.
  ghost predicate Gathers(hold: Parsed, ms: seq<Mechanism>, flat: seq<int>) {
    Distinct(flat) && forall x :: x in flat <==> 0 <= x < |hold| && OnOneOf(hold[x], ms)
  }

  // Folding one more mechanism's bucket into a diagonal that already has some.
  lemma FlatGrows(hold: Parsed, ms: seq<Mechanism>, m: Mechanism, flat: seq<int>)
    requires m !in ms && Gathers(hold, ms, flat)
    ensures Gathers(hold, ms + [m], flat + MembersOf(hold, [m]))
    ensures AllExact(hold, ms + [m]) <==> AllExact(hold, ms) && AllExact(hold, [m])
  {
    var more := MembersOf(hold, [m]);
    DistinctJoin(flat, more);
    assert forall n :: n in ms + [m] <==> n in ms || n == m;
  }

  lemma DistinctJoin(a: seq<int>, b: seq<int>)
    requires Distinct(a) && Distinct(b) && forall x :: x in a ==> x !in b
    ensures Distinct(a + b)
  {
    assert forall i :: 0 <= i < |a| ==> a[i] in a;
    assert forall i :: 0 <= i < |b| ==> b[i] in b;
  }

  lemma NextHit(hold: Parsed, d: Diag, folding: seq<Mechanism>, i: int)
    requires 0 <= i < |folding| && Distinct(folding)
    ensures folding[i] !in WithDiag(hold, d, folding[..i])
    ensures WithDiag(hold, d, folding[..i+1])
         == WithDiag(hold, d, folding[..i]) + if Shape(hold, folding[i]) == Some(d) then [folding[i]] else []
  {
    assert folding[..i+1][..i] == folding[..i] && folding[i] !in folding[..i];
  }

  // What has been gathered of the first i buckets that folded to d.
  ghost predicate HitsUpTo(
      hold: Parsed, d: Diag, folding: seq<Mechanism>, i: int, ms: seq<Mechanism>, flat: seq<int>, exact: bool)
    requires 0 <= i <= |folding|
  {
    ms == WithDiag(hold, d, folding[..i]) && Gathers(hold, ms, flat) && (exact <==> AllExact(hold, ms))
  }

  method AddHit(hold: Parsed, d: Diag, ghost folding: seq<Mechanism>, ghost i: int, bucket: Bucket,
                ms: seq<Mechanism>, flat: seq<int>, exact: bool)
    returns (more: seq<Mechanism>, longer: seq<int>, still: bool)
    requires 0 <= i < |folding| && Distinct(folding) && Shape(hold, folding[i]) == Some(d)
    requires bucket == BucketFor(hold, folding[i]) && HitsUpTo(hold, d, folding, i, ms, flat, exact)
    ensures HitsUpTo(hold, d, folding, i + 1, more, longer, still)
  {
    NextHit(hold, d, folding, i);
    FlatGrows(hold, ms, folding[i], flat);
    more, longer, still := ms + [bucket.mechanism], flat + bucket.members, exact && bucket.exact;
  }

  // The buckets that folded to d: their mechanisms, their members end to end, and whether all are exact.
  method Hits(hold: Parsed, ghost folding: seq<Mechanism>, folded: seq<Bucket>, d: Diag)
    returns (ms: seq<Mechanism>, flat: seq<int>, exact: bool)
    requires Distinct(folding) && forall m :: m in folding ==> Shape(hold, m).Some?
    requires IsFoldedFor(hold, folded, folding)
    ensures ms == WithDiag(hold, d, folding)
    ensures Gathers(hold, ms, flat) && (exact <==> AllExact(hold, ms))
  {
    ms, flat, exact := [], [], true;
    for i := 0 to |folded|
      invariant HitsUpTo(hold, d, folding, i, ms, flat, exact)
    {
      var bucket := folded[i];
      assert bucket == BucketFor(hold, folding[i]);
      if bucket.diag == d { ms, flat, exact := AddHit(hold, d, folding, i, bucket, ms, flat, exact); }
      else { NextHit(hold, d, folding, i); }
    }
    assert folding[..|folding|] == folding;
  }

  // Buckets that folded to the same diagonal are one presented control.
  method Coalesce(hold: Parsed, ghost order: seq<Mechanism>, folded: seq<Bucket>, d: Diag) returns (out: seq<Held>)
    requires Distinct(order) && IsFolded(hold, folded, order)
    ensures out == if WithDiag(hold, d, order) == [] then [] else [DiagControl(hold, order, d)]
  {
    var ms, flat, exact := Hits(hold, Folding(hold, order), folded, d);
    WithDiagOfFolding(hold, d, order);
    if ms == [] { return []; }
    assert Gathers(hold, ms, flat);
    var members := SortInts(flat);
    AscendingUnique(members, MembersOf(hold, ms));
    out := [DiagHeld(d, ms, members, exact)];
  }

  predicate Complete(order: seq<Mechanism>) {
    Dpad in order && LStick in order && RStick in order
  }

  // The members of the mechanisms already folded are consumed, and nothing else is.
  ghost predicate ConsumedBy(hold: Parsed, consumed: array<bool>, ms: seq<Mechanism>)
    reads consumed
  {
    consumed.Length == |hold| && forall i :: 0 <= i < |hold| ==> (consumed[i] <==> OnOneOf(hold[i], ms))
  }

  lemma FoldingNext(hold: Parsed, order: seq<Mechanism>, k: int)
    requires 0 <= k < |order|
    ensures Folding(hold, order[..k+1])
         == Folding(hold, order[..k]) + if Shape(hold, order[k]).Some? then [order[k]] else []
  {
    assert order[..k+1][..k] == order[..k];
  }

  // One mechanism that folds: its bucket is kept and its members consumed.
  method TakeBucket(hold: Parsed, ghost ms: seq<Mechanism>, bucket: Bucket, folded: seq<Bucket>, consumed: array<bool>)
    returns (more: seq<Bucket>)
    requires Shape(hold, bucket.mechanism).Some? && bucket == BucketFor(hold, bucket.mechanism)
    requires (forall m :: m in ms ==> Shape(hold, m).Some?) && IsFoldedFor(hold, folded, ms)
    requires ConsumedBy(hold, consumed, ms)
    modifies consumed
    ensures forall m :: m in ms + [bucket.mechanism] ==> Shape(hold, m).Some?
    ensures IsFoldedFor(hold, more, ms + [bucket.mechanism])
    ensures ConsumedBy(hold, consumed, ms + [bucket.mechanism])
  {
    Consume(bucket.members, consumed);
    more := folded + [bucket];
    assert forall n :: n in ms + [bucket.mechanism] <==> n in ms || n == bucket.mechanism;
  }

  // What is known once the mechanisms that led to the buckets of ms have been gone through.
  ghost predicate FoldedSoFar(hold: Parsed, folded: seq<Bucket>, consumed: array<bool>, ms: seq<Mechanism>)
    reads consumed
  {
    (forall m :: m in ms ==> Shape(hold, m).Some?) && IsFoldedFor(hold, folded, ms) && ConsumedBy(hold, consumed, ms)
  }

  // One mechanism: skipped unless both its axes are held and neither contradicts itself.
  method FoldOne(hold: Parsed, ghost ms: seq<Mechanism>, m: Mechanism, folded: seq<Bucket>, consumed: array<bool>)
    returns (more: seq<Bucket>)
    requires FoldedSoFar(hold, folded, consumed, ms)
    modifies consumed
    ensures FoldedSoFar(hold, more, consumed, ms + if Shape(hold, m).Some? then [m] else [])
  {
    var members := Members(hold, m);
    var vertical, horizontal, split, exact := Polarity(hold, m, members);
    if vertical.None? || horizontal.None? || split {
      assert ms + [] == ms;
      return folded;
    }
    var bucket := Bucket(DiagFromHalves(vertical.value, horizontal.value), m, members, exact);
    more := TakeBucket(hold, ms, bucket, folded, consumed);
  }

  method FoldMechanisms(hold: Parsed, order: seq<Mechanism>, consumed: array<bool>) returns (folded: seq<Bucket>)
    requires Complete(order)
    requires consumed.Length == |hold| && forall i :: 0 <= i < |hold| ==> !consumed[i]
    modifies consumed
    ensures IsFolded(hold, folded, order)
    ensures forall i :: 0 <= i < |hold| ==> (consumed[i] <==> Consumed(hold, i))
  {
    folded := [];
    for k := 0 to |order|
      invariant FoldedSoFar(hold, folded, consumed, Folding(hold, order[..k]))
    {
      FoldingNext(hold, order, k);
      folded := FoldOne(hold, Folding(hold, order[..k]), order[k], folded, consumed);
    }
    assert order[..|order|] == order;
    AllFolded(hold, order);
  }

  lemma AllFolded(hold: Parsed, order: seq<Mechanism>)
    requires Complete(order)
    ensures forall i :: 0 <= i < |hold| ==> (OnOneOf(hold[i], Folding(hold, order)) <==> Consumed(hold, i))
  {}

  method Consume(members: seq<int>, consumed: array<bool>)
    requires forall i :: i in members ==> 0 <= i < consumed.Length
    modifies consumed
    ensures forall i :: 0 <= i < consumed.Length ==> (consumed[i] <==> old(consumed[i]) || i in members)
  {
    for j := 0 to |members|
      invariant forall i :: 0 <= i < consumed.Length ==> (consumed[i] <==> old(consumed[i]) || i in members[..j])
    {
      assert members[j] in members && members[..j+1] == members[..j] + [members[j]];
      consumed[members[j]] := true;
    }
    assert members[..|members|] == members;
  }

  method DiagPass(hold: Parsed, ghost order: seq<Mechanism>, folded: seq<Bucket>, ds: seq<Diag>)
    returns (out: seq<Held>)
    requires Distinct(order) && IsFolded(hold, folded, order)
    ensures out == DiagControls(hold, order, ds)
  {
    out := [];
    for k := 0 to |ds|
      invariant out == DiagControls(hold, order, ds[..k])
    {
      assert ds[..k+1][..k] == ds[..k];
      var control := Coalesce(hold, order, folded, ds[k]);
      out := out + control;
    }
    assert ds[..|ds|] == ds;
  }

  method PlainPass(hold: Parsed, consumed: array<bool>) returns (out: seq<Held>)
    requires consumed.Length == |hold| && forall i :: 0 <= i < |hold| ==> (consumed[i] <==> Consumed(hold, i))
    ensures out == PlainControls(hold, |hold|)
  {
    out := [];
    for i := 0 to |hold|
      invariant out == PlainControls(hold, i)
    {
      if !consumed[i] { out := out + [PlainHeld(i)]; }
    }
  }

  /** How the page presents a hold. */
  method FoldHold(hold: Parsed) returns (out: seq<Held>)
    ensures out == Presented(hold)
  {
    assert MECHANISMS[0] == Dpad && MECHANISMS[1] == LStick && MECHANISMS[2] == RStick;
    var consumed := new bool[|hold|](_ => false);
    var folded := FoldMechanisms(hold, MECHANISMS, consumed);
    var diagonals := DiagPass(hold, MECHANISMS, folded, DIAGS);
    var plain := PlainPass(hold, consumed);
    out := diagonals + plain;
  }

  // ----- the presentation is exact

  lemma {:induction false} DiagControlsMembers(hold: Parsed, all: seq<Mechanism>, ds: seq<Diag>, h: Held)
    ensures h in DiagControls(hold, all, ds) <==>
      h.DiagHeld? && h.diag in ds && h == DiagControl(hold, all, h.diag) && h.mechanisms != []
  {
    if ds != [] {
      DiagControlsMembers(hold, all, ds[..|ds|-1], h);
      assert ds == ds[..|ds|-1] + [ds[|ds|-1]];
    }
  }

  lemma {:induction false} DiagControlsDistinct(hold: Parsed, all: seq<Mechanism>, ds: seq<Diag>)
    requires Distinct(ds)
    ensures Distinct(DiagControls(hold, all, ds))
  {
    if ds != [] {
      var front, d := ds[..|ds|-1], ds[|ds|-1];
      DiagControlsDistinct(hold, all, front);
      DiagControlsMembers(hold, all, front, DiagControl(hold, all, d));
      assert d !in front;
    }
  }

  lemma {:induction false} PlainControlsMembers(hold: Parsed, n: nat, h: Held)
    requires n <= |hold|
    ensures h in PlainControls(hold, n) <==> h.PlainHeld? && 0 <= h.member < n && !Consumed(hold, h.member)
  {
    if n != 0 { PlainControlsMembers(hold, n - 1, h); }
  }

  lemma {:induction false} PlainControlsDistinct(hold: Parsed, n: nat)
    requires n <= |hold|
    ensures Distinct(PlainControls(hold, n))
  {
    if n != 0 {
      PlainControlsDistinct(hold, n - 1);
      PlainControlsMembers(hold, n - 1, PlainHeld(n - 1));
    }
  }

  lemma AllMechanismsAllDiags()
    ensures forall m: Mechanism :: m in MECHANISMS
    ensures forall d: Diag :: d in DIAGS
    ensures Distinct(MECHANISMS) && Distinct(DIAGS)
  {
    forall m: Mechanism ensures m in MECHANISMS {
      match m
      case Dpad => assert MECHANISMS[0] == m;
      case LStick => assert MECHANISMS[1] == m;
      case RStick => assert MECHANISMS[2] == m;
    }
    forall d: Diag ensures d in DIAGS {
      match d
      case UL => assert DIAGS[0] == d;
      case UR => assert DIAGS[1] == d;
      case DL => assert DIAGS[2] == d;
      case DR => assert DIAGS[3] == d;
    }
  }

  // What is presented, control by control.
  lemma PresentedMembers(hold: Parsed, h: Held)
    ensures h in Presented(hold) <==>
      match h
      case DiagHeld(d, ms, _, _) => h == DiagControl(hold, MECHANISMS, d) && ms != []
      case PlainHeld(i) => 0 <= i < |hold| && !Consumed(hold, i)
  {
    AllMechanismsAllDiags();
    DiagControlsMembers(hold, MECHANISMS, DIAGS, h);
    PlainControlsMembers(hold, |hold|, h);
  }

  lemma PresentedDistinct(hold: Parsed)
    ensures Distinct(Presented(hold))
  {
    AllMechanismsAllDiags();
    DiagControlsDistinct(hold, MECHANISMS, DIAGS);
    PlainControlsDistinct(hold, |hold|);
    forall h | h in DiagControls(hold, MECHANISMS, DIAGS) && h in PlainControls(hold, |hold|) ensures false {
      DiagControlsMembers(hold, MECHANISMS, DIAGS, h);
      PlainControlsMembers(hold, |hold|, h);
    }
    var ds, ps := DiagControls(hold, MECHANISMS, DIAGS), PlainControls(hold, |hold|);
    forall i, j | 0 <= i < |ds| && 0 <= j < |ps| ensures ds[i] != ps[j] {
      assert ds[i] in ds && ps[j] in ps;
    }
  }

  // The one control that presents position i.
  function Presenter(hold: Parsed, i: int): Held
    requires 0 <= i < |hold|
  {
    if Consumed(hold, i) then DiagControl(hold, MECHANISMS, Shape(hold, hold[i].value.mechanism).value)
    else PlainHeld(i)
  }

  lemma PresenterOnly(hold: Parsed, i: int, h: Held)
    requires 0 <= i < |hold|
    ensures h in Presented(hold) && h.Covers(i) <==> h == Presenter(hold, i)
  {
    AllMechanismsAllDiags();
    PresentedMembers(hold, h);
    if h == Presenter(hold, i) && Consumed(hold, i) {
      assert hold[i].value.mechanism in h.mechanisms;
    }
  }

  /** Every position of the hold is in exactly one presented control, and no control names a
      position the hold does not have. */
  lemma FoldPartitions(hold: Parsed, i: int)
    ensures 0 <= i < |hold| ==> exists k :: 0 <= k < |Presented(hold)| && Presented(hold)[k].Covers(i)
    ensures forall k, l ::
      (0 <= k < |Presented(hold)| && 0 <= l < |Presented(hold)|
      && Presented(hold)[k].Covers(i) && Presented(hold)[l].Covers(i))
      ==> 0 <= i < |hold| && k == l
  {
    var out := Presented(hold);
    if 0 <= i < |hold| {
      var h := Presenter(hold, i);
      PresenterOnly(hold, i, h);
      var k :| 0 <= k < |out| && out[k] == h;
    }
    PresentedDistinct(hold);
    forall k | 0 <= k < |out| && out[k].Covers(i) ensures 0 <= i < |hold| && out[k] == Presenter(hold, i) {
      assert out[k] in out;
      PresentedMembers(hold, out[k]);
      PresenterOnly(hold, i, out[k]);
    }
  }

  /** Is mechanism m presented under diagonal d? */
  predicate Lit(hold: Parsed, m: Mechanism, d: Diag) {
    exists h :: h in Presented(hold) && h.DiagHeld? && h.diag == d && m in h.mechanisms
  }

  lemma LitIsShape(hold: Parsed, m: Mechanism, d: Diag)
    ensures Lit(hold, m, d) <==> Shape(hold, m) == Some(d)
  {
    AllMechanismsAllDiags();
    var control := DiagControl(hold, MECHANISMS, d);
    PresentedMembers(hold, control);
    assert m in control.mechanisms <==> Shape(hold, m) == Some(d);
    forall h | h in Presented(hold) && h.DiagHeld? && h.diag == d ensures h == control {
      PresentedMembers(hold, h);
    }
  }

  lemma ShapeIff(hold: Parsed, m: Mechanism, d: Diag)
    ensures Shape(hold, m) == Some(d) <==>
      HoldsDir(hold, m, true, d.Up()) && HoldsDir(hold, m, false, d.Right())
      && !HoldsDir(hold, m, true, !d.Up()) && !HoldsDir(hold, m, false, !d.Right())
  {}

  // One vertical and one horizontal direction, and nothing else on m, make a diagonal.
  lemma ShapeOfTwo(hold: Parsed, m: Mechanism, d: Diag)
    requires Some(Pointing(m, true, d.Up(), true)) in hold && Some(Pointing(m, false, d.Right(), true)) in hold
    requires forall f :: f in hold && On(f, m) ==>
      f.value == Pointing(m, true, d.Up(), true) || f.value == Pointing(m, false, d.Right(), true)
    ensures Shape(hold, m) == Some(d)
  {
    ShapeIff(hold, m, d);
    assert Points(Some(Pointing(m, true, d.Up(), true)), m, true, d.Up());
    assert Points(Some(Pointing(m, false, d.Right(), true)), m, false, d.Right());
  }

  /** m is presented under d exactly when it is held on both axes and every direction it holds on an
      axis, in whatever order and however often, has d's sign there. */
  lemma LitIff(hold: Parsed, m: Mechanism, d: Diag)
    ensures Lit(hold, m, d) <==>
      (exists f :: f in hold && On(f, m) && f.value.vertical)
      && (exists f :: f in hold && On(f, m) && !f.value.vertical)
      && forall f :: f in hold && On(f, m) ==> f.value.positive == if f.value.vertical then d.Up() else d.Right()
  {
    LitIsShape(hold, m, d);
    ShapeIff(hold, m, d);
    assert forall f :: f in hold && On(f, m) ==> Points(f, m, f.value.vertical, f.value.positive);
  }

  /** The set of (mechanism, diagonal) pairs does not depend on the order of the hold. */
  lemma FoldIgnoresOrder(a: Parsed, b: Parsed, m: Mechanism, d: Diag)
    requires multiset(a) == multiset(b)
    ensures Lit(a, m, d) <==> Lit(b, m, d)
  {
    LitIff(a, m, d);
    LitIff(b, m, d);
    assert forall f :: f in a <==> f in b by {
      assert forall f :: f in a <==> f in multiset(a);
      assert forall f :: f in b <==> f in multiset(b);
    }
  }
}
