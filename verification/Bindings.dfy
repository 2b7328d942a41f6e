/** Key lists: how the page edits them, how they travel, and what a daemon that may refuse does with them. */
module Bindings {
  import opened Common
  import opened Names

  // ----- editing a control's key list

  predicate Holds(keys: seq<string>, key: string) { exists i :: 0 <= i < |keys| && SameName(keys[i], key) }

  // `with_key`
  function WithKey(keys: seq<string>, key: string): seq<string> {
    if Holds(keys, key) then keys else keys + [key]
  }

  function Unlike(key: string): string -> bool { k => !SameName(k, key) }

  // `without_key`
  function WithoutKey(keys: seq<string>, key: string): seq<string> {
    Filter(Unlike(key), keys)
  }

  /** The list `addKey` writes, or nothing when the control already has the key. */
  function Added(before: seq<string>, key: string): Option<seq<string>> {
    if Holds(before, key) then None else Some(before + [key])
  }

  /** The list `removeKey` writes, or nothing when the control does not have the key. */
  function Taken(before: seq<string>, key: string): Option<seq<string>> {
    var after := WithoutKey(before, key);
    if |after| == |before| then None else Some(after)
  }

  /** Taking a key off changes the list exactly when it was there, and what stays keeps its order: putting a key
      on and taking it off again is no change. */
  lemma WithoutKeyIs(keys: seq<string>, key: string)
    ensures !Holds(WithoutKey(keys, key), key)
    ensures WithoutKey(keys, key) == keys <==> !Holds(keys, key)
    ensures |WithoutKey(keys, key)| == |keys| <==> !Holds(keys, key)
    ensures !Holds(keys, key) ==> WithoutKey(keys + [key], key) == keys
    ensures forall k :: k in WithoutKey(keys, key) <==> k in keys && !SameName(k, key)
  {
    FilterLength(Unlike(key), keys);
    FilterAll(Unlike(key), keys);
    FilterAppend(Unlike(key), keys, key);
    var rest := WithoutKey(keys, key);
    assert forall i :: 0 <= i < |rest| ==> rest[i] in rest;
  }

  // No key twice, case aside.
  ghost predicate OneEach(keys: seq<string>) {
    forall i, j :: 0 <= i < j < |keys| ==> !SameName(keys[i], keys[j])
  }

  /** Adding a key leaves it held, every other key where it was, and nothing held twice; adding it again, in whatever
      case, changes nothing; and a key that was new is taken off again without a trace. */
  lemma WithKeyIs(keys: seq<string>, key: string, again: string)
    requires SameName(key, again)
    ensures Holds(WithKey(keys, key), key) && keys <= WithKey(keys, key)
    ensures OneEach(keys) ==> OneEach(WithKey(keys, key))
    ensures WithKey(WithKey(keys, key), again) == WithKey(keys, key)
    ensures WithoutKey(WithKey(keys, key), again) == WithoutKey(keys, again)
  {
    var more := WithKey(keys, key);
    if Holds(keys, key) {
      var i :| 0 <= i < |keys| && SameName(keys[i], key);
      assert SameName(keys[i], again);
    } else {
      assert SameName(more[|keys|], key) && SameName(more[|keys|], again);
      FilterAppend(Unlike(again), keys, key);
    }
  }

  /** The page's edits and the daemon's are the same: the page writes the list `with_key` and `without_key` give, and
      refuses exactly when that is the list there is. */
  lemma EditsAgree(before: seq<string>, key: string)
    ensures Added(before, key).GetOr(before) == WithKey(before, key)
    ensures Added(before, key).None? <==> WithKey(before, key) == before
    ensures Taken(before, key).GetOr(before) == WithoutKey(before, key)
    ensures Taken(before, key).None? <==> WithoutKey(before, key) == before
  {
    WithoutKeyIs(before, key);
    if !Holds(before, key) { assert |WithKey(before, key)| == |before| + 1; }
  }

  // ----- the `map` request on the wire

  datatype MapRequest = MapRequest(key: Option<string>, keys: seq<string>, clear: bool, turboHz: Option<nat>)

  // `map_request`
  method BuildRequest(keys: seq<string>, turboHz: Option<nat>) returns (request: MapRequest)
    ensures request == Request(keys, turboHz)
    ensures request.clear <==> keys == []
    ensures request.key == if |keys| == 1 then Some(keys[0]) else None
    ensures request.keys == if |keys| > 1 then keys else []
    ensures request.turboHz == turboHz
  {
    request := MapRequest(None, [], false, turboHz);
    if |keys| == 0 { request := request.(clear := true); }
    else if |keys| == 1 { request := request.(key := Some(keys[0])); }
    else { request := request.(keys := keys); }
  }

  function Request(keys: seq<string>, turboHz: Option<nat>): MapRequest {
    if |keys| == 0 then MapRequest(None, [], true, turboHz)
    else if |keys| == 1 then MapRequest(Some(keys[0]), [], false, turboHz)
    else MapRequest(None, keys, false, turboHz)
  }

  // White space as Rust's `str::trim` sees it.
  predicate IsSpace(c: char) {
    var n := c as int;
    0x9 <= n <= 0xD || n in {0x20, 0x85, 0xA0, 0x1680, 0x2028, 0x2029, 0x202F, 0x205F, 0x3000} || 0x2000 <= n <= 0x200A
  }

  predicate Blank(s: string) { forall i :: 0 <= i < |s| ==> IsSpace(s[i]) }

  function IsNamed(): string -> bool { key => !Blank(key) }

  function NotBlank(keys: seq<string>): seq<string> { Filter(IsNamed(), keys) }

  /** The daemon's reader, then `key_list`: the keys a request means, or nothing when it is refused. */
  function KeyList(r: MapRequest): Option<seq<string>> {
    var key := if r.key.Some? && !Blank(r.key.value) then r.key else None;
    var keys := NotBlank(r.keys);
    if key.Some? && keys != [] then None
    else if key.None? && keys == [] && !r.clear then None
    else if (key.Some? || keys != []) && r.clear then None
    else if key.Some? then Some([key.value]) else Some(keys)
  }

  /** A request says one thing: a key, a list, or a clear. The daemon refuses one that says none of them or more
      than one, blanks not counting, and does what the others say. */
  lemma ReaderTakesOne(r: MapRequest)
    ensures var key, list := r.key.Some? && !Blank(r.key.value), NotBlank(r.keys) != [];
      && (KeyList(r).Some? <==>
        (key && !list && !r.clear) || (!key && list && !r.clear) || (!key && !list && r.clear))
      && (KeyList(r).Some? ==> KeyList(r).value == if key then [r.key.value] else NotBlank(r.keys))
  {}

  /** Blank names in a list are dropped, wherever they stand. */
  lemma BlanksDrop(a: seq<string>, b: seq<string>, key: string)
    ensures NotBlank(a + b) == NotBlank(a) + NotBlank(b)
    ensures NotBlank([key]) == if Blank(key) then [] else [key]
  {
    FilterJoin(IsNamed(), a, b);
    FilterOne(IsNamed(), key);
  }

  lemma NotBlankIs(keys: seq<string>)
    ensures NotBlank(keys) == keys <==> forall i :: 0 <= i < |keys| ==> !Blank(keys[i])
    ensures |NotBlank(keys)| == |keys| ==> NotBlank(keys) == keys
  {
    FilterLength(IsNamed(), keys);
    FilterAll(IsNamed(), keys);
  }

  /** A key list comes back from the wire as it went in exactly when no key in it is blank. */
  lemma WireKeepsTheList(keys: seq<string>, turboHz: Option<nat>)
    ensures KeyList(Request(keys, turboHz)) == Some(keys) <==> forall i :: 0 <= i < |keys| ==> !Blank(keys[i])
    ensures Request(keys, turboHz).turboHz == turboHz
  {
    NotBlankIs(keys);
    if |keys| == 1 { assert keys == [keys[0]]; }
  }

  // ----- the daemon's store

  /** A guarded row: its key counts only while the `when` keys are held and no `unless` key is. */
  datatype Chord = Chord(key: string, when: seq<string>, unless: seq<string>)

  /** One control of a preset: its plain keys, its auto-fire rate and its chords. */
  datatype Row = Row(keys: seq<string>, turbo: Option<nat>, chords: seq<Chord>)

  type Preset = map<string, Row>

  function RowOf(p: Preset, fn: string): Row { if fn in p then p[fn] else Row([], None, []) }

  ghost predicate SamePreset(p: Preset, q: Preset) { forall fn :: RowOf(p, fn) == RowOf(q, fn) }

  // The first of each, in order.
  function Firsts(names: seq<string>): (r: seq<string>)
    ensures forall n :: n in r <==> n in names
  {
    if names == [] then []
    else
      var r := Firsts(names[..|names|-1]);
      assert names == names[..|names|-1] + [names[|names|-1]];
      if names[|names|-1] in r then r else r + [names[|names|-1]]
  }

  /** Each name stays where it first stood. */
  lemma {:induction false} FirstsGrow(a: seq<string>, b: seq<string>, name: string)
    ensures Firsts(a) <= Firsts(a + b)
    ensures Firsts(a + [name]) == if name in a then Firsts(a) else Firsts(a) + [name]
  {
    assert (a + [name])[..|a|] == a;
    if b == [] {
      assert a + b == a;
    } else {
      var n := |b| - 1;
      FirstsGrow(a, b[..n], name);
      assert (a + b)[..|a + b|-1] == a + b[..n];
    }
  }

  // What a write that names no rate and no guard leaves on a control: each key once, no chord, and a cleared control
  // is blank.
  function Written(row: Row, keys: seq<string>): Row {
    Row(Firsts(keys), if keys == [] then None else row.turbo, [])
  }

  datatype Job = Job(fn: string, keys: seq<string>)

  /** The daemon takes a write it is willing to make; one that knows only single keys never takes two. */
  predicate Takes(lists: bool, willing: nat -> bool, call: nat, keys: seq<string>) {
    willing(call) && (lists || |keys| <= 1)
  }

  function AfterJobs(p: Preset, jobs: seq<Job>, lists: bool, willing: nat -> bool, call: nat): Preset {
    if jobs == [] then p
    else
      var n := |jobs| - 1;
      var q := AfterJobs(p, jobs[..n], lists, willing, call);
      if !Takes(lists, willing, call + n, jobs[n].keys) then q
      else q[jobs[n].fn := Written(RowOf(q, jobs[n].fn), jobs[n].keys)]
  }

  function RefusedJobs(jobs: seq<Job>, lists: bool, willing: nat -> bool, call: nat): (r: seq<string>) {
    if jobs == [] then []
    else
      var n := |jobs| - 1;
      RefusedJobs(jobs[..n], lists, willing, call)
      + if Takes(lists, willing, call + n, jobs[n].keys) then [] else [jobs[n].fn]
  }

  predicate TookOne(jobs: seq<Job>, lists: bool, willing: nat -> bool, call: nat, fn: string) {
    exists i :: 0 <= i < |jobs| && jobs[i].fn == fn && Takes(lists, willing, call + i, jobs[i].keys)
  }

  lemma TookOneStep(jobs: seq<Job>, lists: bool, willing: nat -> bool, call: nat, fn: string)
    requires jobs != []
    ensures var n := |jobs| - 1;
      TookOne(jobs, lists, willing, call, fn) <==>
        TookOne(jobs[..n], lists, willing, call, fn)
        || (jobs[n].fn == fn && Takes(lists, willing, call + n, jobs[n].keys))
  {
    var n := |jobs| - 1;
    assert forall i :: 0 <= i < n ==> jobs[..n][i] == jobs[i];
  }

  /** However many writes name a control, and whichever are refused: if they all carry one key list, the control
      ends up with that list when one was taken, and as it was when none was. */
  lemma {:induction false} RowAfterJobs(
      p: Preset, jobs: seq<Job>, lists: bool, willing: nat -> bool, call: nat, fn: string, keys: seq<string>)
    requires forall i :: 0 <= i < |jobs| && jobs[i].fn == fn ==> jobs[i].keys == keys
    ensures RowOf(AfterJobs(p, jobs, lists, willing, call), fn)
         == if TookOne(jobs, lists, willing, call, fn) then Written(RowOf(p, fn), keys) else RowOf(p, fn)
  {
    if jobs != [] {
      TookOneStep(jobs, lists, willing, call, fn);
      RowAfterJobs(p, jobs[..|jobs|-1], lists, willing, call, fn, keys);
    }
  }

  // ----- a group write and its undo

  function GroupJobs(fns: seq<string>, keys: seq<string>): (jobs: seq<Job>)
    ensures |jobs| == |fns| && forall i :: 0 <= i < |fns| ==> jobs[i] == Job(fns[i], keys)
  {
    seq(|fns|, i requires 0 <= i < |fns| => Job(fns[i], keys))
  }

  /** The page's view of a preset: each control's keys. */
  type Seen = map<string, seq<string>>

  function KeysIn(seen: Seen, fn: string): seq<string> { if fn in seen then seen[fn] else [] }

  /** What a group undo remembers, in the order the controls were first named. */
  datatype Group = Group(order: seq<string>, before: map<string, seq<string>>)

  function Remembered(seen: Seen, fns: seq<string>): (g: Group)
    ensures g.order == Firsts(fns)
    ensures forall fn :: fn in g.before <==> fn in fns
    ensures forall fn :: fn in fns ==> g.before[fn] == KeysIn(seen, fn)
  {
    if fns == [] then Group([], map[])
    else
      var n := |fns| - 1;
      assert fns == fns[..n] + [fns[n]];
      Noted(Remembered(seen, fns[..n]), fns[n], KeysIn(seen, fns[n]))
  }

  function Noted(g: Group, fn: string, keys: seq<string>): Group {
    Group(if fn in g.before then g.order else g.order + [fn], g.before[fn := keys])
  }

  function UndoJobs(g: Group): (jobs: seq<Job>)
    requires forall fn :: fn in g.order ==> fn in g.before
    ensures |jobs| == |g.order| && forall i :: 0 <= i < |jobs| ==> jobs[i] == Job(g.order[i], g.before[g.order[i]])
  {
    seq(|g.order|, i requires 0 <= i < |g.order| => Job(g.order[i], g.before[g.order[i]]))
  }

  // `writableKeys`
  predicate Writable(keys: seq<string>) { |keys| <= 1 }

  predicate Undoable(g: Group) { forall fn :: fn in g.before ==> Writable(g.before[fn]) }

  ghost predicate AllTaken(jobs: seq<Job>, lists: bool, willing: nat -> bool, call: nat) {
    forall i :: 0 <= i < |jobs| ==> Takes(lists, willing, call + i, jobs[i].keys)
  }

  /** The rate of a control survives a group write and its undo: it has none, or it had keys to come back to and
      was not cleared in between. */
  predicate RateSurvives(row: Row, cleared: bool) { row.turbo.None? || (row.keys != [] && !cleared) }

  /** A write and the page's memory of a control both leave its chords out, so it comes back only without any. */
  predicate Returns(row: Row, cleared: bool) { row.chords == [] && RateSurvives(row, cleared) }

  lemma OthersUntouched(p: Preset, fns: seq<string>, keys: seq<string>, lists: bool, willing: nat -> bool, call: nat)
    ensures forall fn :: fn !in fns ==>
      RowOf(AfterJobs(p, GroupJobs(fns, keys), lists, willing, call), fn) == RowOf(p, fn)
  {
    forall fn | fn !in fns
      ensures RowOf(AfterJobs(p, GroupJobs(fns, keys), lists, willing, call), fn) == RowOf(p, fn)
    {
      RowAfterJobs(p, GroupJobs(fns, keys), lists, willing, call, fn, keys);
    }
  }

  // One control after a group write and its undo, and when that is how it was.
  function UndoneAs(row: Row, took: bool, keys: seq<string>, remembered: seq<string>): Row {
    Written(if took then Written(row, keys) else row, remembered)
  }

  lemma WhenUndone(row: Row, took: bool, keys: seq<string>, remembered: seq<string>)
    ensures UndoneAs(row, took, keys, remembered).keys == Firsts(remembered)
    ensures UndoneAs(row, took, keys, remembered) == row <==>
      Firsts(remembered) == row.keys && Returns(row, keys == [] && took)
  {
    assert remembered != [] ==> remembered[0] in Firsts(remembered);
  }

  /** One control after a group write and a group undo whose own writes were all taken. */
  lemma UndoneRow(p: Preset, seen: Seen, fns: seq<string>, keys: seq<string>, lists: bool,
                  willing: nat -> bool, call: nat, undoWilling: nat -> bool, undoCall: nat, fn: string)
    requires AllTaken(UndoJobs(Remembered(seen, fns)), lists, undoWilling, undoCall)
    ensures var q := AfterJobs(p, GroupJobs(fns, keys), lists, willing, call);
      var r := AfterJobs(q, UndoJobs(Remembered(seen, fns)), lists, undoWilling, undoCall);
      var took := TookOne(GroupJobs(fns, keys), lists, willing, call, fn);
      RowOf(r, fn) == if fn !in fns then RowOf(p, fn) else UndoneAs(RowOf(p, fn), took, keys, KeysIn(seen, fn))
  {
    var g := Remembered(seen, fns);
    var q := AfterJobs(p, GroupJobs(fns, keys), lists, willing, call);
    RowAfterJobs(p, GroupJobs(fns, keys), lists, willing, call, fn, keys);
    RowAfterJobs(q, UndoJobs(g), lists, undoWilling, undoCall, fn, KeysIn(seen, fn));
    TakenOfGroup(g, lists, undoWilling, undoCall, fn);
  }

  lemma TakenOfGroup(g: Group, lists: bool, willing: nat -> bool, call: nat, fn: string)
    requires forall f :: f in g.order ==> f in g.before
    requires AllTaken(UndoJobs(g), lists, willing, call)
    ensures TookOne(UndoJobs(g), lists, willing, call, fn) <==> fn in g.order
  {
    if fn in g.order {
      var i :| 0 <= i < |g.order| && g.order[i] == fn;
      assert UndoJobs(g)[i].fn == fn && Takes(lists, willing, call + i, UndoJobs(g)[i].keys);
    }
  }

  ghost predicate IsUndone(
      p: Preset, r: Preset, seen: Seen, fns: seq<string>, keys: seq<string>, took: bool, fn: string)
  {
    RowOf(r, fn) == if fn !in fns then RowOf(p, fn) else UndoneAs(RowOf(p, fn), took, keys, KeysIn(seen, fn))
  }

  lemma UndoneEverywhere(
      p: Preset, r: Preset, seen: Seen, fns: seq<string>, keys: seq<string>, took: string -> bool)
    requires forall fn :: IsUndone(p, r, seen, fns, keys, took(fn), fn)
    ensures forall fn :: fn !in fns ==> RowOf(r, fn) == RowOf(p, fn)
    ensures forall fn :: fn in fns ==> RowOf(r, fn).keys == Firsts(KeysIn(seen, fn))
    ensures SamePreset(p, r) <==>
      forall fn :: fn in fns ==>
        Firsts(KeysIn(seen, fn)) == RowOf(p, fn).keys && Returns(RowOf(p, fn), keys == [] && took(fn))
  {
    forall fn
      ensures fn !in fns ==> RowOf(r, fn) == RowOf(p, fn)
      ensures fn in fns ==> RowOf(r, fn).keys == Firsts(KeysIn(seen, fn))
      ensures fn in fns ==>
        (RowOf(r, fn) == RowOf(p, fn) <==>
          Firsts(KeysIn(seen, fn)) == RowOf(p, fn).keys && Returns(RowOf(p, fn), keys == [] && took(fn)))
    {
      assert IsUndone(p, r, seen, fns, keys, took(fn), fn);
      WhenUndone(RowOf(p, fn), took(fn), keys, KeysIn(seen, fn));
    }
  }

  /** A group undo whose writes are all taken puts every selected control back on the keys the page remembered,
      whichever writes of the group were refused, and touches nothing else. It restores the whole preset exactly
      when what the page remembered was true, no selected control had a chord, and none lost its auto-fire rate on the
      way. The chords go even where the group's own write was refused, for the undo rewrites every control. */
  lemma GroupUndo(p: Preset, seen: Seen, fns: seq<string>, keys: seq<string>, lists: bool,
                  willing: nat -> bool, call: nat, undoWilling: nat -> bool, undoCall: nat)
    requires AllTaken(UndoJobs(Remembered(seen, fns)), lists, undoWilling, undoCall)
    ensures var q := AfterJobs(p, GroupJobs(fns, keys), lists, willing, call);
      var r := AfterJobs(q, UndoJobs(Remembered(seen, fns)), lists, undoWilling, undoCall);
      && (forall fn :: fn !in fns ==> RowOf(q, fn) == RowOf(p, fn) && RowOf(r, fn) == RowOf(p, fn))
      && (forall fn :: fn in fns ==> RowOf(r, fn).keys == Firsts(KeysIn(seen, fn)))
      && (SamePreset(p, r) <==>
        forall fn :: fn in fns ==>
          Firsts(KeysIn(seen, fn)) == RowOf(p, fn).keys
          && Returns(RowOf(p, fn), keys == [] && TookOne(GroupJobs(fns, keys), lists, willing, call, fn)))
  {
    var jobs, undo := GroupJobs(fns, keys), UndoJobs(Remembered(seen, fns));
    var q := AfterJobs(p, jobs, lists, willing, call);
    var r := AfterJobs(q, undo, lists, undoWilling, undoCall);
    var took := fn => TookOne(jobs, lists, willing, call, fn);
    OthersUntouched(p, fns, keys, lists, willing, call);
    forall fn ensures IsUndone(p, r, seen, fns, keys, took(fn), fn) {
      UndoneRow(p, seen, fns, keys, lists, willing, call, undoWilling, undoCall, fn);
    }
    UndoneEverywhere(p, r, seen, fns, keys, took);
  }

  /** An undo that was refused in part can simply be run again: whatever the first try wrote, a second one that
      is taken ends where a single taken one would. */
  lemma UndoCanBeRetried(q: Preset, g: Group, lists: bool, some: nat -> bool, at: nat, all: nat -> bool, call: nat)
    requires forall fn :: fn in g.order ==> fn in g.before
    requires AllTaken(UndoJobs(g), lists, all, call)
    ensures SamePreset(AfterJobs(AfterJobs(q, UndoJobs(g), lists, some, at), UndoJobs(g), lists, all, call),
                       AfterJobs(q, UndoJobs(g), lists, all, call))
  {
    var jobs := UndoJobs(g);
    var half := AfterJobs(q, jobs, lists, some, at);
    forall fn
      ensures RowOf(AfterJobs(half, jobs, lists, all, call), fn) == RowOf(AfterJobs(q, jobs, lists, all, call), fn)
    {
      var keys := if fn in g.before then g.before[fn] else [];
      RowAfterJobs(q, jobs, lists, some, at, fn, keys);
      RowAfterJobs(half, jobs, lists, all, call, fn, keys);
      RowAfterJobs(q, jobs, lists, all, call, fn, keys);
      if fn in g.order {
        var i :| 0 <= i < |g.order| && g.order[i] == fn;
        assert jobs[i].fn == fn && Takes(lists, all, call + i, jobs[i].keys);
      }
    }
  }

  /** A group undo is on offer exactly when no selected control held several keys. */
  lemma UndoableIff(seen: Seen, fns: seq<string>)
    ensures Undoable(Remembered(seen, fns)) <==> forall fn :: fn in fns ==> |KeysIn(seen, fn)| <= 1
  {
    var g := Remembered(seen, fns);
    assert forall fn :: fn in fns ==> fn in g.before && g.before[fn] == KeysIn(seen, fn);
  }

  /** Where an Undo is offered, each remembered list is what is put back, to the key. */
  lemma {:induction false} OfferedListsAreKept(g: Group, fn: string)
    requires Undoable(g) && fn in g.before
    ensures Firsts(g.before[fn]) == g.before[fn]
  {
    var keys := g.before[fn];
    if |keys| == 1 { assert keys[..0] == [] && keys == [keys[0]]; }
  }

  /** It happens: clear a control that auto-fires, undo, and the keys are back but the rate is not. */
  lemma ClearThenUndoLosesTheRate()
    ensures var p := map["A" := Row(["S"], Some(15), [])];
      var q := AfterJobs(p, GroupJobs(["A"], []), true, _ => true, 0);
      var r := AfterJobs(q, UndoJobs(Remembered(map["A" := ["S"]], ["A"])), true, _ => true, 1);
      RowOf(r, "A") == Row(["S"], None, [])
  {
    var p := map["A" := Row(["S"], Some(15), [])];
    var yes := (_: nat) => true;
    var jobs := GroupJobs(["A"], []);
    assert Takes(true, yes, 0 + 0, jobs[0].keys);
    var undo := UndoJobs(Remembered(map["A" := ["S"]], ["A"]));
    assert Firsts(["A"]) == ["A"];
    assert forall i :: 0 <= i < |undo| ==> Takes(true, yes, 1 + i, undo[i].keys);
    UndoneRow(p, map["A" := ["S"]], ["A"], [], true, yes, 0, yes, 1, "A");
  }

  /** It happens: map a control with a chord to another key, undo, and the key is back but the chord is not. So it goes
      even when the daemon refuses the mapping and takes only the undo. */
  lemma MapThenUndoLosesTheChord(willing: nat -> bool)
    ensures var p := map["A" := Row(["S"], None, [Chord("G", ["H"], [])])];
      var q := AfterJobs(p, GroupJobs(["A"], ["K"]), true, willing, 0);
      var r := AfterJobs(q, UndoJobs(Remembered(map["A" := ["S"]], ["A"])), true, _ => true, 1);
      RowOf(r, "A") == Row(["S"], None, [])
  {
    var p := map["A" := Row(["S"], None, [Chord("G", ["H"], [])])];
    var yes := (_: nat) => true;
    var undo := UndoJobs(Remembered(map["A" := ["S"]], ["A"]));
    assert Firsts(["A"]) == ["A"] && Firsts(["S"]) == ["S"];
    assert forall i :: 0 <= i < |undo| ==> Takes(true, yes, 1 + i, undo[i].keys);
    UndoneRow(p, map["A" := ["S"]], ["A"], ["K"], true, willing, 0, yes, 1, "A");
  }

  // ----- the daemon and the page

  /** The daemon, as the page meets it: which calls it will take is fixed from outside, call by call. */
  class Daemon {
    var preset: Preset
    var calls: nat
    const willing: nat -> bool
    const lists: bool

    constructor (preset: Preset, willing: nat -> bool, lists: bool)
      ensures this.preset == preset && calls == 0 && this.willing == willing && this.lists == lists
    {
      this.preset, calls, this.willing, this.lists := preset, 0, willing, lists;
    }

    /** The `map` write without a rate or a guard: the control's old rows go, chords included. */
    method BindKeys(fn: string, keys: seq<string>) returns (ok: bool)
      modifies this
      ensures ok == Takes(lists, willing, old(calls), keys) && calls == old(calls) + 1
      ensures ok <==> willing(old(calls)) && (lists || |keys| <= 1)
      ensures preset == if ok then old(preset)[fn := Written(RowOf(old(preset), fn), keys)] else old(preset)
    {
      ok := willing(calls);
      calls := calls + 1;
      if !lists && |keys| > 1 { ok := false; }
      if ok {
        var rate := if |keys| == 0 then None else RowOf(preset, fn).turbo;
        preset := preset[fn := Row(Firsts(keys), rate, [])];
      }
    }

    /** `bindOnce`: one key, or none to clear. */
    method BindOnce(fn: string, key: Option<string>) returns (ok: bool)
      modifies this
      ensures ok == willing(old(calls)) && calls == old(calls) + 1
      ensures preset == if ok then old(preset)[fn := Written(RowOf(old(preset), fn), OneKey(key))] else old(preset)
    {
      ok := BindKeys(fn, OneKey(key));
    }
  }

  function OneKey(key: Option<string>): seq<string> { if key.Some? then [key.value] else [] }

  // `new Map(fns.map(...))`
  method Remember(seen: Seen, fns: seq<string>) returns (g: Group)
    ensures g == Remembered(seen, fns)
  {
    g := Group([], map[]);
    for i := 0 to |fns|
      invariant g == Remembered(seen, fns[..i])
    {
      assert fns[..i+1][..i] == fns[..i];
      g := Noted(g, fns[i], KeysIn(seen, fns[i]));
    }
    assert fns[..|fns|] == fns;
  }

  // One more job: the preset and the refusals after it.
  lemma JobDone(p: Preset, jobs: seq<Job>, lists: bool, willing: nat -> bool, call: nat, i: nat)
    requires i < |jobs|
    ensures var q, job := AfterJobs(p, jobs[..i], lists, willing, call), jobs[i];
      var refused := RefusedJobs(jobs[..i], lists, willing, call);
      if Takes(lists, willing, call + i, job.keys) then
        AfterJobs(p, jobs[..i+1], lists, willing, call) == q[job.fn := Written(RowOf(q, job.fn), job.keys)]
        && RefusedJobs(jobs[..i+1], lists, willing, call) == refused
      else
        AfterJobs(p, jobs[..i+1], lists, willing, call) == q
        && RefusedJobs(jobs[..i+1], lists, willing, call) == refused + [job.fn]
  {
    assert jobs[..i+1][..i] == jobs[..i];
  }

  // The write loop of `mapAll` and `clearSelectedBindings`.
  method WriteAll(d: Daemon, fns: seq<string>, key: Option<string>) returns (refused: seq<string>)
    modifies d
    ensures var jobs := GroupJobs(fns, OneKey(key));
      && d.preset == AfterJobs(old(d.preset), jobs, d.lists, d.willing, old(d.calls))
      && refused == RefusedJobs(jobs, d.lists, d.willing, old(d.calls))
    ensures d.calls == old(d.calls) + |fns|
  {
    ghost var jobs := GroupJobs(fns, OneKey(key));
    refused := [];
    var i := 0;
    while i < |fns|
      invariant 0 <= i <= |fns| && d.calls == old(d.calls) + i
      invariant d.preset == AfterJobs(old(d.preset), jobs[..i], d.lists, d.willing, old(d.calls))
      invariant refused == RefusedJobs(jobs[..i], d.lists, d.willing, old(d.calls))
    {
      JobDone(old(d.preset), jobs, d.lists, d.willing, old(d.calls), i);
      var ok := d.BindOnce(fns[i], key);
      if !ok { refused := refused + [fns[i]]; }
      i := i + 1;
    }
    assert jobs[..|jobs|] == jobs;
  }

  // On these keys and no others.
  function OnJust(p: Preset, keys: seq<string>): string -> bool { fn => RowOf(p, fn).keys == keys }

  // `targets.filter(...)`
  function Keeping(fns: seq<string>, p: Preset, keys: seq<string>): (kept: seq<string>)
    ensures kept == [] <==> forall fn :: fn in fns ==> RowOf(p, fn).keys != keys
  {
    var kept := Filter(OnJust(p, keys), fns);
    assert kept != [] ==> kept[0] in kept;
    kept
  }

  /** What is reported as kept is each selected control that is on these keys and no others, in the order selected. */
  lemma KeepingIs(a: seq<string>, b: seq<string>, fn: string, p: Preset, keys: seq<string>)
    ensures Keeping(a + b, p, keys) == Keeping(a, p, keys) + Keeping(b, p, keys)
    ensures Keeping([fn], p, keys) == if RowOf(p, fn).keys == keys then [fn] else []
  {
    FilterJoin(OnJust(p, keys), a, b);
    FilterOne(OnJust(p, keys), fn);
  }

  /** `mapAll`: every control to one key. What it reports it reads back from the file. */
  method MapAll(d: Daemon, seen: Seen, fns: seq<string>, key: string)
    returns (refused: seq<string>, kept: seq<string>, undo: Option<Group>)
    modifies d
    ensures var jobs := GroupJobs(fns, [key]);
      && d.preset == AfterJobs(old(d.preset), jobs, d.lists, d.willing, old(d.calls))
      && refused == RefusedJobs(jobs, d.lists, d.willing, old(d.calls))
    ensures kept == Keeping(fns, d.preset, [key])
    ensures undo.Some? <==> kept != [] && Undoable(Remembered(seen, fns))
    ensures undo.Some? ==> undo.value == Remembered(seen, fns)
  {
    var g := Remember(seen, fns);
    refused := WriteAll(d, fns, Some(key));
    kept := Keeping(fns, d.preset, [key]);
    undo := if kept != [] && Undoable(g) then Some(g) else None;
  }

  /** `clearSelectedBindings`. */
  method ClearSelected(d: Daemon, seen: Seen, fns: seq<string>) returns (failed: seq<string>, undo: Option<Group>)
    modifies d
    ensures var jobs := GroupJobs(fns, []);
      && d.preset == AfterJobs(old(d.preset), jobs, d.lists, d.willing, old(d.calls))
      && failed == RefusedJobs(jobs, d.lists, d.willing, old(d.calls))
    ensures undo.Some? <==> |failed| < |fns| && Undoable(Remembered(seen, fns))
    ensures undo.Some? ==> undo.value == Remembered(seen, fns)
  {
    failed := [];
    undo := None;
    if |fns| == 0 { return; }
    var g := Remember(seen, fns);
    failed := WriteAll(d, fns, None);
    undo := if |failed| < |fns| && Undoable(g) then Some(g) else None;
  }

  /** `undoGroup`: the controls that could not be put back; none means the undo landed. */
  method UndoGroup(d: Daemon, g: Group) returns (failed: seq<string>)
    requires forall fn :: fn in g.order ==> fn in g.before
    modifies d
    ensures d.preset == AfterJobs(old(d.preset), UndoJobs(g), d.lists, d.willing, old(d.calls))
    ensures failed == RefusedJobs(UndoJobs(g), d.lists, d.willing, old(d.calls))
    ensures failed == [] <==> AllTaken(UndoJobs(g), d.lists, d.willing, old(d.calls))
  {
    ghost var jobs, p, call := UndoJobs(g), d.preset, d.calls;
    failed := [];
    var i := 0;
    while i < |g.order|
      invariant 0 <= i <= |g.order| && WrittenSoFar(d, p, call, jobs[..i], failed)
    {
      failed := WriteNext(d, p, call, jobs, i, g.order[i], g.before[g.order[i]], failed);
      i := i + 1;
    }
    assert jobs[..|jobs|] == jobs;
    NoneRefused(jobs, d.lists, d.willing, call);
  }

  // These writes have been sent, the first of them as this call.
  ghost predicate WrittenSoFar(d: Daemon, p: Preset, call: nat, jobs: seq<Job>, refused: seq<string>)
    reads d
  {
    d.calls == call + |jobs| && d.preset == AfterJobs(p, jobs, d.lists, d.willing, call)
    && refused == RefusedJobs(jobs, d.lists, d.willing, call)
  }

  method WriteNext(d: Daemon, ghost p: Preset, ghost call: nat, ghost jobs: seq<Job>, ghost i: nat, fn: string,
                   keys: seq<string>, refused: seq<string>)
    returns (more: seq<string>)
    requires i < |jobs| && jobs[i] == Job(fn, keys) && WrittenSoFar(d, p, call, jobs[..i], refused)
    modifies d
    ensures WrittenSoFar(d, p, call, jobs[..i+1], more)
  {
    JobDone(p, jobs, d.lists, d.willing, call, i);
    var ok := d.BindKeys(fn, keys);
    more := if ok then refused else refused + [fn];
  }

  /** The controls reported as refused are those of the writes that were, in the order written. */
  lemma RefusedAre(jobs: seq<Job>, lists: bool, willing: nat -> bool, call: nat, i: nat)
    requires i < |jobs|
    ensures RefusedJobs([], lists, willing, call) == []
    ensures RefusedJobs(jobs[..i+1], lists, willing, call)
         == RefusedJobs(jobs[..i], lists, willing, call)
            + if willing(call + i) && (lists || |jobs[i].keys| <= 1) then [] else [jobs[i].fn]
  {
    JobDone(map[], jobs, lists, willing, call, i);
  }

  lemma AllTakenStep(jobs: seq<Job>, lists: bool, willing: nat -> bool, call: nat)
    requires jobs != []
    ensures var n := |jobs| - 1;
      AllTaken(jobs, lists, willing, call) <==>
        AllTaken(jobs[..n], lists, willing, call) && Takes(lists, willing, call + n, jobs[n].keys)
  {
    var n := |jobs| - 1;
    assert forall i :: 0 <= i < n ==> jobs[..n][i] == jobs[i];
  }

  lemma {:induction false} NoneRefused(jobs: seq<Job>, lists: bool, willing: nat -> bool, call: nat)
    ensures RefusedJobs(jobs, lists, willing, call) == [] <==> AllTaken(jobs, lists, willing, call)
  {
    if jobs != [] {
      NoneRefused(jobs[..|jobs|-1], lists, willing, call);
      AllTakenStep(jobs, lists, willing, call);
    }
  }

  ghost predicate NoneTaken(jobs: seq<Job>, lists: bool, willing: nat -> bool, call: nat) {
    forall i :: 0 <= i < |jobs| ==> !Takes(lists, willing, call + i, jobs[i].keys)
  }

  lemma {:induction false} EachRefused(jobs: seq<Job>, lists: bool, willing: nat -> bool, call: nat)
    ensures |RefusedJobs(jobs, lists, willing, call)| <= |jobs|
    ensures |RefusedJobs(jobs, lists, willing, call)| == |jobs| <==> NoneTaken(jobs, lists, willing, call)
  {
    if jobs != [] {
      var n := |jobs| - 1;
      EachRefused(jobs[..n], lists, willing, call);
      assert forall i :: 0 <= i < n ==> jobs[..n][i] == jobs[i];
    }
  }

  lemma {:induction false} NothingTaken(p: Preset, jobs: seq<Job>, lists: bool, willing: nat -> bool, call: nat)
    requires NoneTaken(jobs, lists, willing, call)
    ensures AfterJobs(p, jobs, lists, willing, call) == p
  {
    if jobs != [] {
      var n := |jobs| - 1;
      assert forall i :: 0 <= i < n ==> jobs[..n][i] == jobs[i];
      NothingTaken(p, jobs[..n], lists, willing, call);
    }
  }

  /** A group write whose every call was refused changed nothing. */
  lemma AllRefused(p: Preset, jobs: seq<Job>, lists: bool, willing: nat -> bool, call: nat)
    requires |RefusedJobs(jobs, lists, willing, call)| == |jobs|
    ensures AfterJobs(p, jobs, lists, willing, call) == p
  {
    EachRefused(jobs, lists, willing, call);
    NothingTaken(p, jobs, lists, willing, call);
  }

  lemma OneLanded(
      p: Preset, fns: seq<string>, key: string, lists: bool, willing: nat -> bool, call: nat, i: nat)
    requires i < |fns| && Takes(lists, willing, call + i, [key])
    ensures Keeping(fns, AfterJobs(p, GroupJobs(fns, [key]), lists, willing, call), [key]) != []
  {
    var jobs := GroupJobs(fns, [key]);
    assert jobs[i] == Job(fns[i], [key]) && TookOne(jobs, lists, willing, call, fns[i]);
    RowAfterJobs(p, jobs, lists, willing, call, fns[i], [key]);
    assert [key][..0] == [] && Firsts([key]) == [key];
  }

  /** A map-all leaves the page without an Undo only when it wrote nothing or when some selected control held
      several keys: no control reads back as bound to the key exactly when no write was taken and none was bound
      to it before. */
  lemma MapAllKeptNone(p: Preset, fns: seq<string>, key: string, lists: bool, willing: nat -> bool, call: nat)
    ensures var jobs := GroupJobs(fns, [key]);
      var q := AfterJobs(p, jobs, lists, willing, call);
      && (Keeping(fns, q, [key]) == [] <==>
        Keeping(fns, p, [key]) == [] && |RefusedJobs(jobs, lists, willing, call)| == |fns|)
      && (Keeping(fns, q, [key]) == [] ==> q == p)
  {
    var jobs := GroupJobs(fns, [key]);
    EachRefused(jobs, lists, willing, call);
    if NoneTaken(jobs, lists, willing, call) {
      NothingTaken(p, jobs, lists, willing, call);
    } else {
      var i :| 0 <= i < |jobs| && Takes(lists, willing, call + i, jobs[i].keys);
      OneLanded(p, fns, key, lists, willing, call, i);
    }
  }
}
