/** Small shared vocabulary: an optional value and the sequence facts the other modules lean on. */
module Common {

  datatype Option<+T> = None | Some(value: T) {
    function GetOr(default: T): T {
      match this
      case Some(v) => v
      case None => default
    }
  }

  ghost predicate Ascending(s: seq<int>) {
    forall i, j :: 0 <= i < j < |s| ==> s[i] < s[j]
  }

  ghost predicate Distinct<T>(s: seq<T>) {
    forall i, j :: 0 <= i < j < |s| ==> s[i] != s[j]
  }

  lemma AscendingAppend(s: seq<int>, x: int)
    requires Ascending(s) && forall y :: y in s ==> y < x
    ensures Ascending(s + [x])
  {
    assert forall i :: 0 <= i < |s| ==> s[i] in s;
  }

  lemma AscendingPrepend(x: int, s: seq<int>)
    requires Ascending(s) && forall y :: y in s ==> x < y
    ensures Ascending([x] + s)
  {
    assert forall i :: 0 <= i < |s| ==> s[i] in s;
  }

  function Insert(x: int, s: seq<int>): (r: seq<int>)
    requires Ascending(s) && x !in s
    ensures Ascending(r)
    ensures forall y :: y in r <==> y == x || y in s
  {
    if s == [] then [x]
    else if x < s[0] then
      assert forall y :: y in s ==> s[0] <= y;
      AscendingPrepend(x, s); [x] + s
    else
      var rest := Insert(x, s[1..]);
      assert s == [s[0]] + s[1..];
      AscendingPrepend(s[0], rest); [s[0]] + rest
  }

  // The numeric sort, of numbers that are all different.
  function SortInts(xs: seq<int>): (r: seq<int>)
    requires Distinct(xs)
    ensures Ascending(r)
    ensures forall y :: y in r <==> y in xs
  {
    if xs == [] then [] else
      assert xs == xs[..|xs|-1] + [xs[|xs|-1]];
      Insert(xs[|xs|-1], SortInts(xs[..|xs|-1]))
  }

  // An ascending sequence is determined by its elements.
  lemma {:induction false} AscendingUnique(a: seq<int>, b: seq<int>)
    requires Ascending(a) && Ascending(b)
    requires forall x :: x in a <==> x in b
    ensures a == b
  {
    assert (a != [] ==> a[0] in a) && (b != [] ==> b[0] in b);
    if a != [] {
      assert a[0] in b && (b != [] ==> b[0] in a);
      assert a[0] == b[0];
      forall x ensures x in a[1..] <==> x in b[1..] {
        assert x in a[1..] ==> x in a && x != a[0];
        assert x in b[1..] ==> x in b && x != b[0];
      }
      AscendingUnique(a[1..], b[1..]);
      assert a == [a[0]] + a[1..] && b == [b[0]] + b[1..];
    }
  }

  lemma DropJoin<T>(a: seq<T>, b: seq<T>, n: nat)
    requires n <= |a|
    ensures (a + b)[n..] == a[n..] + b
  {}

  lemma DropDrop<T>(s: seq<T>, m: nat, n: nat)
    requires m + n <= |s|
    ensures s[m..][n..] == s[m+n..]
  {}

  // ----- keeping some elements of a sequence, in order

  function Filter<T(!new)>(keep: T -> bool, xs: seq<T>): (r: seq<T>)
    ensures forall x :: x in r <==> x in xs && keep(x)
  {
    if xs == [] then []
    else
      var n := |xs| - 1;
      assert xs == xs[..n] + [xs[n]];
      Filter(keep, xs[..n]) + if keep(xs[n]) then [xs[n]] else []
  }

  lemma {:induction false} FilterJoin<T(!new)>(keep: T -> bool, a: seq<T>, b: seq<T>)
    ensures Filter(keep, a + b) == Filter(keep, a) + Filter(keep, b)
  {
    if b == [] {
      assert a + b == a;
    } else {
      var n := |b| - 1;
      var last := if keep(b[n]) then [b[n]] else [];
      FilterJoin(keep, a, b[..n]);
      assert (a + b)[..|a + b|-1] == a + b[..n] && (a + b)[|a + b|-1] == b[n];
      assert Filter(keep, a) + (Filter(keep, b[..n]) + last) == Filter(keep, a) + Filter(keep, b[..n]) + last;
    }
  }

  lemma {:induction false} FilterLength<T(!new)>(keep: T -> bool, xs: seq<T>)
    ensures |Filter(keep, xs)| <= |xs|
    ensures |Filter(keep, xs)| == |xs| <==> forall i :: 0 <= i < |xs| ==> keep(xs[i])
  {
    if xs != [] { FilterLength(keep, xs[..|xs|-1]); }
  }

  lemma FilterOne<T(!new)>(keep: T -> bool, x: T)
    ensures Filter(keep, [x]) == if keep(x) then [x] else []
  {
    assert [x][..0] == [];
  }

  lemma FilterAppend<T(!new)>(keep: T -> bool, xs: seq<T>, x: T)
    ensures Filter(keep, xs + [x]) == Filter(keep, xs) + if keep(x) then [x] else []
  {
    FilterJoin(keep, xs, [x]);
    FilterOne(keep, x);
  }

  lemma {:induction false} FilterAll<T(!new)>(keep: T -> bool, xs: seq<T>)
    ensures (forall x :: x in xs ==> keep(x)) ==> Filter(keep, xs) == xs
    ensures (forall x :: x in xs ==> !keep(x)) ==> Filter(keep, xs) == []
  {
    if xs != [] {
      var n := |xs| - 1;
      assert xs == xs[..n] + [xs[n]] && xs[n] in xs;
      FilterAll(keep, xs[..n]);
    }
  }

  // Taking one element out of the middle.
  lemma FilterWithout<T(!new)>(keep: T -> bool, a: seq<T>, x: T, b: seq<T>)
    ensures Filter(keep, a + [x] + b) == Filter(keep, a) + (if keep(x) then [x] else []) + Filter(keep, b)
    ensures Filter(keep, a + b) == Filter(keep, a) + Filter(keep, b)
  {
    FilterJoin(keep, a + [x], b);
    FilterAppend(keep, a, x);
    FilterJoin(keep, a, b);
  }

  /** The position of the first element that is meant, or |xs|. */
  function FirstHit<T>(meant: T -> bool, xs: seq<T>): (k: nat)
    ensures k <= |xs|
    ensures forall i :: 0 <= i < k ==> !meant(xs[i])
    ensures k < |xs| ==> meant(xs[k])
  {
    if xs == [] then 0 else if meant(xs[0]) then 0 else 1 + FirstHit(meant, xs[1..])
  }

  // The first element that is meant taken out, or a new one put at the end.
  function Toggled<T>(meant: T -> bool, xs: seq<T>, x: T): seq<T> {
    var k := FirstHit(meant, xs);
    if k < |xs| then xs[..k] + xs[k+1..] else xs + [x]
  }

  lemma FilterAppendTwo<T(!new)>(keep: T -> bool, xs: seq<T>, x: T, y: T)
    requires keep(x) == keep(y)
    ensures Filter(keep, xs + [x, y]) == Filter(keep, xs) + if keep(x) then [x, y] else []
  {
    FilterAppend(keep, xs, x);
    FilterAppend(keep, xs + [x], y);
    assert xs + [x, y] == xs + [x] + [y];
  }

  // What toggling does to what is kept, when keeping means what toggling means or the opposite.
  lemma ToggledOut<T(!new)>(keep: T -> bool, xs: seq<T>, k: nat)
    requires k < |xs|
    ensures var after := xs[..k] + xs[k+1..];
      if keep(xs[k]) then |Filter(keep, after)| == |Filter(keep, xs)| - 1 else Filter(keep, after) == Filter(keep, xs)
  {
    assert xs == xs[..k] + [xs[k]] + xs[k+1..];
    FilterWithout(keep, xs[..k], xs[k], xs[k+1..]);
  }

  lemma ToggledCounts<T(!new)>(meant: T -> bool, rest: T -> bool, xs: seq<T>, x: T)
    requires meant(x) && forall y :: rest(y) == !meant(y)
    ensures var after := Toggled(meant, xs, x);
      && |Filter(meant, after)| == (if Filter(meant, xs) == [] then 1 else |Filter(meant, xs)| - 1)
      && Filter(rest, after) == Filter(rest, xs)
  {
    var k := FirstHit(meant, xs);
    if k < |xs| {
      assert xs[k] in Filter(meant, xs);
      ToggledOut(meant, xs, k);
      ToggledOut(rest, xs, k);
    } else {
      FilterAll(meant, xs);
      FilterAppend(meant, xs, x);
      FilterAppend(rest, xs, x);
    }
  }

  lemma ToggledTwice<T(!new)>(meant: T -> bool, xs: seq<T>, x: T)
    requires meant(x) && forall y :: y in xs ==> !meant(y)
    ensures Toggled(meant, Toggled(meant, xs, x), x) == xs
  {
    assert FirstHit(meant, xs) == |xs|;
    var once := xs + [x];
    assert once[|xs|] == x && forall i :: 0 <= i < |xs| ==> once[i] == xs[i];
    assert FirstHit(meant, once) == |xs|;
  }

  // What is not meant, and not put in, is in the sequence as it was.
  lemma ToggledElsewhere<T>(meant: T -> bool, xs: seq<T>, x: T, y: T)
    requires !meant(y) && y != x
    ensures y in Toggled(meant, xs, x) <==> y in xs
  {
    var k := FirstHit(meant, xs);
    if k < |xs| { assert xs == xs[..k] + [xs[k]] + xs[k+1..]; }
  }
}
