/** A preset's macros as the daemon keeps them, and the page's save, delete, rename and their undos: several calls
    each, any of which may be refused. */
module MacroStore {
  import opened Common
  import opened Names
  import opened Bindings

  /** What a table says. A hand-written one may spell its rate both ways, and is served as it is. */
  datatype Body<S> = Body(steps: seq<S>, policies: seq<string>, turboHz: Option<int>, gapMs: Option<int>)

  /** A `[macros.<spelling>]` table. */
  datatype Table<S> = Table(spelling: string, body: Body<S>, enabled: bool)

  /** A key of a trigger row. A hand-written one may be guarded by other keys; the page is shown the key alone. */
  datatype Trigger = Trigger(key: string, guards: seq<string>)

  // A `macro.<name>` row that is there has a key.
  type TriggerRow = r: seq<Trigger> | r != [] witness [Trigger("P", [])]

  /** Both maps are keyed by the lower-cased macro name: the daemon matches names without case. */
  datatype Store<S> = Store(tables: map<string, Table<S>>, triggers: map<string, TriggerRow>)

  /** What every call leaves of a file that loads: each table under its own name, with steps and one rate, and each
      trigger row plain, without repetition, and with its table. */
  ghost predicate Valid<S>(s: Store<S>) {
    (forall k :: k in s.tables ==>
      Lower(s.tables[k].spelling) == k && s.tables[k].body.steps != [] && OneRate(s.tables[k].body))
    && forall k :: k in s.triggers ==> k in s.tables && Ordinary(s.triggers[k])
  }

  predicate OneRate<S>(b: Body<S>) { b.turboHz.None? || b.gapMs.None? }

  // `macro_trigger_keys`
  function KeysOf(row: seq<Trigger>): (keys: seq<string>)
    ensures |keys| == |row| && forall i :: 0 <= i < |row| ==> keys[i] == row[i].key
  {
    seq(|row|, i requires 0 <= i < |row| => row[i].key)
  }

  // The row a trigger write leaves.
  function Plain(keys: seq<string>): (row: seq<Trigger>)
    ensures |row| == |keys| && forall i :: 0 <= i < |keys| ==> row[i] == Trigger(keys[i], [])
  {
    seq(|keys|, i requires 0 <= i < |keys| => Trigger(keys[i], []))
  }

  /** No key of the row is guarded, and none is named twice. */
  predicate Ordinary(row: seq<Trigger>) {
    (forall i :: 0 <= i < |row| ==> row[i].guards == [])
    && forall i, j :: 0 <= i < j < |row| ==> row[i].key != row[j].key
  }

  lemma {:induction false} FirstsAreDistinct(names: seq<string>)
    ensures Distinct(Firsts(names))
  {
    if names != [] { FirstsAreDistinct(names[..|names|-1]); }
  }

  lemma {:induction false} FirstsOfDistinct(names: seq<string>)
    requires Distinct(names)
    ensures Firsts(names) == names
  {
    if names != [] {
      var n := |names| - 1;
      assert names == names[..n] + [names[n]];
      FirstsOfDistinct(names[..n]);
    }
  }

  /** Writing back the keys the page is shown gives the row back exactly when it was an ordinary one. */
  lemma RowReturnsIff(row: seq<Trigger>)
    ensures Plain(Firsts(KeysOf(row))) == row <==> Ordinary(row)
  {
    var keys := KeysOf(row);
    FirstsAreDistinct(keys);
    if Ordinary(row) {
      FirstsOfDistinct(keys);
    } else if Plain(Firsts(keys)) == row {
      assert KeysOf(row) == Firsts(keys);
      assert forall i :: 0 <= i < |row| ==> row[i].guards == [] && row[i].key == keys[i];
      assert false;
    }
  }

  lemma WrittenRowIsOrdinary(keys: seq<string>)
    ensures Ordinary(Plain(Firsts(keys)))
  {
    FirstsAreDistinct(keys);
  }

  // `macroWrite` sends the presses per second when there are any, and the gap only otherwise.
  function Sent<S>(b: Body<S>): Body<S> { if b.turboHz.Some? then b.(gapMs := None) else b }

  function KeysFor<S>(s: Store<S>, name: string): seq<string> {
    if Lower(name) in s.triggers then KeysOf(s.triggers[Lower(name)]) else []
  }

  // A write keeps the spelling the file already has. The page sends no `enabled`, which means enabled.
  function Saved<S>(s: Store<S>, name: string, body: Body<S>): Store<S> {
    var k := Lower(name);
    s.(tables := s.tables[k := Table(if k in s.tables then s.tables[k].spelling else name, Sent(body), true)])
  }

  function Deleted<S>(s: Store<S>, name: string): Store<S> {
    Store(s.tables - {Lower(name)}, s.triggers - {Lower(name)})
  }

  function Triggered<S>(s: Store<S>, name: string, keys: seq<string>): Store<S> {
    var row := Plain(Firsts(keys));
    s.(triggers := if row == [] then s.triggers - {Lower(name)} else s.triggers[Lower(name) := row])
  }

  predicate Has<S>(s: Store<S>, name: string) { Lower(name) in s.tables }

  // Only what stands under k changed.
  ghost predicate OnlyUnder<V>(m: map<string, V>, n: map<string, V>, k: string) {
    forall j :: j != k ==> (j in n <==> j in m) && (j in m ==> n[j] == m[j])
  }

  /** A write lands switched on, under the spelling the file has, if it has one; of a rate spelled both ways it keeps
      the presses per second. Triggers and the other macros stay. */
  lemma SaveWrites<S>(s: Store<S>, name: string, body: Body<S>)
    ensures var t, k := Saved(s, name, body), Lower(name);
      && t.triggers == s.triggers && OnlyUnder(s.tables, t.tables, k) && k in t.tables && t.tables[k].enabled
      && t.tables[k].spelling == (if k in s.tables then s.tables[k].spelling else name)
      && t.tables[k].body == body.(gapMs := if body.turboHz.Some? then None else body.gapMs)
  {}

  /** A delete takes the table and its trigger row. */
  lemma DeleteTakesBoth<S>(s: Store<S>, name: string)
    ensures var t, k := Deleted(s, name), Lower(name);
      && k !in t.tables && k !in t.triggers
      && OnlyUnder(s.tables, t.tables, k) && OnlyUnder(s.triggers, t.triggers, k)
  {}

  /** A trigger write leaves a row of the keys, plain, each once and where it first stood; none, and the row goes. */
  lemma TriggerWrites<S>(s: Store<S>, name: string, keys: seq<string>)
    ensures var t, k := Triggered(s, name, keys), Lower(name);
      && t.tables == s.tables && OnlyUnder(s.triggers, t.triggers, k)
      && (k in t.triggers <==> keys != [])
      && (keys != [] ==> KeysOf(t.triggers[k]) == Firsts(keys) && Ordinary(t.triggers[k]))
  {
    WrittenRowIsOrdinary(keys);
    assert keys != [] ==> keys[0] in Firsts(keys);
    assert KeysOf(Plain(Firsts(keys))) == Firsts(keys);
  }

  // ----- the daemon

  class MacroDaemon<S(==)> {
    var store: Store<S>
    var calls: nat
    const willing: nat -> bool
    const lists: bool

    constructor (store: Store<S>, willing: nat -> bool, lists: bool)
      ensures this.store == store && calls == 0 && this.willing == willing && this.lists == lists
    {
      this.store, calls, this.willing, this.lists := store, 0, willing, lists;
    }

    /** `macroWrite` with a body. */
    method Save(name: string, body: Body<S>) returns (ok: bool)
      modifies this
      ensures calls == old(calls) + 1 && ok == (willing(old(calls)) && body.steps != [])
      ensures store == if ok then Saved(old(store), name, body) else old(store)
    {
      ok := willing(calls) && |body.steps| > 0;
      calls := calls + 1;
      if ok {
        var k := Lower(name);
        var sent := if body.turboHz.Some? then body.(gapMs := None) else body;
        var spelling := if k in store.tables then store.tables[k].spelling else name;
        store := store.(tables := store.tables[k := Table(spelling, sent, true)]);
      }
    }

    /** `macroWrite` with `remove`. */
    method Delete(name: string) returns (ok: bool)
      modifies this
      ensures calls == old(calls) + 1 && ok == (willing(old(calls)) && Has(old(store), name))
      ensures store == if ok then Deleted(old(store), name) else old(store)
    {
      ok := willing(calls) && Lower(name) in store.tables;
      calls := calls + 1;
      if ok { store := Store(store.tables - {Lower(name)}, store.triggers - {Lower(name)}); }
    }

    /** `bindKeys` on `macro.<name>`. */
    method BindTrigger(name: string, keys: seq<string>) returns (ok: bool)
      modifies this
      ensures calls == old(calls) + 1 && ok == (Takes(lists, willing, old(calls), keys) && Has(old(store), name))
      ensures store == if ok then Triggered(old(store), name, keys) else old(store)
    {
      ok := willing(calls) && (lists || |keys| <= 1) && Lower(name) in store.tables;
      calls := calls + 1;
      if ok {
        var row := Plain(Firsts(keys));
        var rest := store.triggers - {Lower(name)};
        store := store.(triggers := if row == [] then rest else store.triggers[Lower(name) := row]);
      }
    }
  }

  // ----- rename

  /** A macro as the page holds it. */
  datatype View<S> = View(name: string, body: Body<S>, triggers: seq<string>)

  datatype Outcome = Done | NotWritten | BothThere | TriggersLost

  /** Which of the three calls are taken: the write, the delete, the trigger row. */
  datatype Answers = Answers(write: bool, remove: bool, bind: bool)

  function Renaming<S>(s: Store<S>, from: View<S>, to: string, a: Answers): (Store<S>, Outcome) {
    if !a.write || from.body.steps == [] then (s, NotWritten)
    else
      var wrote := Saved(s, to, from.body);
      if !a.remove || !Has(wrote, from.name) then (wrote, BothThere)
      else
        var removed := Deleted(wrote, from.name);
        if from.triggers == [] then (removed, Done)
        else if !a.bind || !Has(removed, to) then (removed, TriggersLost)
        else (Triggered(removed, to, from.triggers), Done)
  }

  ghost function AnswersFrom(willing: nat -> bool, lists: bool, call: nat, keys: seq<string>): Answers {
    Answers(willing(call), willing(call + 1), Takes(lists, willing, call + 2, keys))
  }

  /** `macroRenameTo`. */
  method MacroRenameTo<S(==)>(d: MacroDaemon<S>, from: View<S>, to: string) returns (outcome: Outcome)
    modifies d
    ensures (d.store, outcome)
         == Renaming(old(d.store), from, to, AnswersFrom(d.willing, d.lists, old(d.calls), from.triggers))
  {
    var wrote := d.Save(to, from.body);
    if !wrote { return NotWritten; }
    var removed := d.Delete(from.name);
    if !removed { return BothThere; }
    if |from.triggers| > 0 {
      var bound := d.BindTrigger(to, from.triggers);
      if !bound { return TriggersLost; }
    }
    return Done;
  }

  /** No call leaves a table under another's name, a body the daemon would refuse, a guarded trigger, or a trigger row
      without its table. */
  lemma CallsKeepValid<S>(s: Store<S>, name: string, body: Body<S>, keys: seq<string>)
    requires Valid(s)
    ensures body.steps != [] ==> Valid(Saved(s, name, body))
    ensures Valid(Deleted(s, name))
    ensures Has(s, name) ==> Valid(Triggered(s, name, keys))
  {
    WrittenRowIsOrdinary(keys);
  }

  lemma RenamingKeepsValid<S>(s: Store<S>, from: View<S>, to: string, a: Answers)
    requires Valid(s)
    ensures Valid(Renaming(s, from, to, a).0)
  {
    CallsKeepValid(s, to, from.body, []);
    var wrote := Saved(s, to, from.body);
    if from.body.steps != [] {
      CallsKeepValid(wrote, from.name, from.body, []);
      CallsKeepValid(Deleted(wrote, from.name), to, from.body, from.triggers);
    }
  }

  /** The store with one macro called something else and nothing else changed. */
  function Renamed<S>(s: Store<S>, from: string, to: string): Store<S>
    requires Has(s, from)
  {
    var k, n := Lower(from), Lower(to);
    Store((s.tables - {k})[n := s.tables[k].(spelling := to)],
          if k in s.triggers then (s.triggers - {k})[n := s.triggers[k]] else s.triggers - {k})
  }

  /** The steps are on disk under this name. */
  ghost predicate Kept<S>(s: Store<S>, name: string, body: Body<S>) {
    Has(s, name) && s.tables[Lower(name)].body.steps == body.steps
  }

  /** Whatever is refused, renaming to a name that differs ignoring case never loses the sequence: the old table is
      there unchanged, or the new one holds the steps the page was editing, or both. No other macro is touched. */
  lemma RenameNeverLoses<S>(s: Store<S>, from: View<S>, to: string, a: Answers)
    requires Has(s, from.name) && !SameName(from.name, to)
    ensures var t := Renaming(s, from, to, a).0;
      && ((Has(t, from.name) && t.tables[Lower(from.name)] == s.tables[Lower(from.name)]) || Kept(t, to, from.body))
      && (forall k :: k != Lower(from.name) && k != Lower(to) ==>
        (k in t.tables <==> k in s.tables) && (k in t.triggers <==> k in s.triggers)
        && (k in s.tables ==> t.tables[k] == s.tables[k]) && (k in s.triggers ==> t.triggers[k] == s.triggers[k]))
  {}

  /** What each answer means: which tables there are afterwards, and which keys start the macro. */
  lemma RenameOutcomes<S>(s: Store<S>, from: View<S>, to: string, a: Answers)
    requires Has(s, from.name) && !Has(s, to)
    ensures var r := Renaming(s, from, to, a);
      && (r.1.NotWritten? ==> r.0 == s)
      && (r.1.BothThere? <==> Has(r.0, from.name) && Has(r.0, to))
      && (r.1.Done? || r.1.TriggersLost? <==> !Has(r.0, from.name) && Has(r.0, to))
      && (r.1.Done? ==> KeysFor(r.0, to) == if from.triggers == [] then KeysFor(s, to) else Firsts(from.triggers))
      && (r.1.TriggersLost? ==> KeysFor(r.0, to) == KeysFor(s, to) && from.triggers != [])
      && (Valid(s) ==> KeysFor(s, to) == [])
  {
    assert KeysOf(Plain(Firsts(from.triggers))) == Firsts(from.triggers);
    assert from.triggers != [] ==> from.triggers[0] in Firsts(from.triggers);
  }

  // The page's copy of a macro is what the file holds.
  ghost predicate Accurate<S>(s: Store<S>, v: View<S>) {
    Has(s, v.name) && s.tables[Lower(v.name)].spelling == v.name && s.tables[Lower(v.name)].body == v.body
    && v.triggers == KeysFor(s, v.name)
  }

  /** What a write of the page's copy cannot lose: the macro is switched on, spells its rate one way at most, and its
      trigger row, if it has one, is an ordinary one. */
  predicate Returns<S>(s: Store<S>, name: string)
    requires Has(s, name)
  {
    var k := Lower(name);
    s.tables[k].enabled && OneRate(s.tables[k].body) && (k in s.triggers ==> Ordinary(s.triggers[k]))
  }

  // The triggers after `macro.<name>` rows for these keys are written over row k.
  function Rebound(triggers: map<string, TriggerRow>, k: string, keys: seq<string>): map<string, TriggerRow> {
    var row := Plain(Firsts(keys));
    if row == [] then triggers else triggers[k := row]
  }

  lemma ReboundIff<S>(s: Store<S>, name: string)
    ensures Rebound(s.triggers, Lower(name), KeysFor(s, name)) == s.triggers
      <==> (Lower(name) in s.triggers ==> Ordinary(s.triggers[Lower(name)]))
  {
    var k := Lower(name);
    if k in s.triggers {
      RowReturnsIff(s.triggers[k]);
      assert KeysFor(s, name)[0] in Firsts(KeysFor(s, name));
      assert Rebound(s.triggers, k, KeysFor(s, name))[k] == Plain(Firsts(KeysFor(s, name)));
    }
  }

  // A rename that is taken in full, written out.
  lemma TakenRename<S>(s: Store<S>, from: View<S>, to: string)
    requires Has(s, from.name) && !Has(s, to) && from.body.steps != []
    ensures var k, n := Lower(from.name), Lower(to);
      Renaming(s, from, to, Answers(true, true, true))
        == (Store((s.tables - {k})[n := Table(to, Sent(from.body), true)], Rebound(s.triggers - {k}, n, from.triggers)),
            Done)
  {
    var k, n := Lower(from.name), Lower(to);
    var wrote := Saved(s, to, from.body);
    assert wrote.tables - {k} == (s.tables - {k})[n := Table(to, Sent(from.body), true)];
    assert from.triggers != [] ==> from.triggers[0] in Firsts(from.triggers);
  }

  /** A rename that is taken in full is exactly a rename exactly when the page's copy can lose nothing: the write
      carries no `enabled` and one rate at most, and the trigger write no guard. Without steps nothing is renamed. */
  lemma FullRename<S>(s: Store<S>, from: View<S>, to: string)
    requires Accurate(s, from) && !Has(s, to)
    ensures var r := Renaming(s, from, to, Answers(true, true, true));
      && (r.1.Done? <==> from.body.steps != []) && (!r.1.Done? ==> r.0 == s)
      && (r.1.Done? ==> (r.0 == Renamed(s, from.name, to) <==> Returns(s, from.name)))
  {
    if from.body.steps != [] {
      TakenRename(s, from, to);
      RenamedTables(s, from, to);
      RenamedTriggers(s, from, to);
    }
  }

  lemma RenamedTables<S>(s: Store<S>, from: View<S>, to: string)
    requires Accurate(s, from) && !Has(s, to)
    ensures var k, n := Lower(from.name), Lower(to);
      (s.tables - {k})[n := Table(to, Sent(from.body), true)] == Renamed(s, from.name, to).tables
      <==> s.tables[k].enabled && OneRate(s.tables[k].body)
  {
    var k, n := Lower(from.name), Lower(to);
    assert (s.tables - {k})[n := Table(to, Sent(from.body), true)][n] == Table(to, Sent(from.body), true);
    assert Renamed(s, from.name, to).tables[n] == s.tables[k].(spelling := to);
  }

  lemma RenamedTriggers<S>(s: Store<S>, from: View<S>, to: string)
    requires Accurate(s, from) && !Has(s, to)
    ensures var k, n := Lower(from.name), Lower(to);
      Rebound(s.triggers - {k}, n, from.triggers) == Renamed(s, from.name, to).triggers
      <==> (k in s.triggers ==> Ordinary(s.triggers[k]))
  {
    var k, n := Lower(from.name), Lower(to);
    if k in s.triggers {
      RowReturnsIff(s.triggers[k]);
      assert from.triggers[0] in Firsts(from.triggers);
      assert Rebound(s.triggers - {k}, n, from.triggers)[n] == Plain(Firsts(from.triggers));
      assert Renamed(s, from.name, to).triggers[n] == s.triggers[k];
    }
  }

  /** Renaming and undoing it, both taken in full, is no change exactly when the page's copy can lose nothing and no
      stray trigger row stood under the new name. */
  lemma RenameThenUndo<S>(s: Store<S>, from: View<S>, to: string)
    requires Accurate(s, from) && !Has(s, to)
    ensures var there := Renaming(s, from, to, Answers(true, true, true));
      var back := Renaming(there.0, from.(name := to), from.name, Answers(true, true, true));
      there.1.Done? ==>
        back.1.Done? && (back.0 == s <==> Returns(s, from.name) && Lower(to) !in s.triggers)
  {
    if from.body.steps != [] {
      var k, n := Lower(from.name), Lower(to);
      TakenRename(s, from, to);
      var there := Renaming(s, from, to, Answers(true, true, true)).0;
      TakenRename(there, from.(name := to), from.name);
      MovedBack(s.tables, k, n, Table(to, Sent(from.body), true), Table(from.name, Sent(from.body), true));
      ChangedIff(s.tables, k, Table(from.name, Sent(from.body), true));
      TriggersBack(s, from, to);
    }
  }

  lemma TriggersBack<S>(s: Store<S>, from: View<S>, to: string)
    requires Accurate(s, from) && !Has(s, to)
    ensures var k, n := Lower(from.name), Lower(to);
      Rebound(Rebound(s.triggers - {k}, n, from.triggers) - {n}, k, from.triggers) == s.triggers
      <==> (k in s.triggers ==> Ordinary(s.triggers[k])) && n !in s.triggers
  {
    var k, n := Lower(from.name), Lower(to);
    var row := Plain(Firsts(from.triggers));
    var back := Rebound(Rebound(s.triggers - {k}, n, from.triggers) - {n}, k, from.triggers);
    assert n !in back;
    if k in s.triggers {
      RowReturnsIff(s.triggers[k]);
      assert from.triggers[0] in Firsts(from.triggers);
      MovedBack(s.triggers - {n}, k, n, row, row);
      assert s.triggers - {k} - {n} == s.triggers - {n} - {k};
      assert back == (s.triggers - {n})[k := row];
      ChangedIff(s.triggers, k, row);
      if n !in s.triggers { assert s.triggers - {n} == s.triggers; }
    } else {
      assert n !in s.triggers ==> back == s.triggers;
    }
  }

  lemma ChangedIff<V>(m: map<string, V>, k: string, v: V)
    requires k in m
    ensures m[k := v] == m <==> m[k] == v
  {
    if m[k := v] == m { assert m[k := v][k] == m[k]; }
    if m[k] == v { assert m[k := v] == m; }
  }

  lemma MovedBack<V>(m: map<string, V>, k: string, n: string, v: V, w: V)
    requires n !in m && k != n
    ensures ((m - {k})[n := v] - {n})[k := w] == m[k := w]
    ensures k !in m ==> m - {k} - {n} == m
    ensures k in m && m[k] == w ==> m[k := w] == m
  {}

  /** Against a store that matches names without case, a rename that changes only case loses the macro, steps and
      trigger keys and all, exactly when its write and its delete are both taken; so the page must refuse it. */
  lemma CaseOnlyRenameLoses<S>(s: Store<S>, from: View<S>, to: string, a: Answers)
    requires Has(s, from.name) && SameName(from.name, to) && from.body.steps != []
    ensures var t := Renaming(s, from, to, a).0;
      !Has(t, from.name) <==> a.write && a.remove
    ensures a.write && a.remove ==> Renaming(s, from, to, a).0 == Deleted(s, from.name)
    ensures a == Answers(true, true, true) ==> (Renaming(s, from, to, a).1.Done? <==> from.triggers == [])
  {}

  // ----- save, delete and their undo

  /** What is written back: a delete when there was no table, or the table and then its trigger row. */
  function PutBack<S>(s: Store<S>, before: Option<View<S>>, name: string): Store<S> {
    match before
    case None => if Has(s, name) then Deleted(s, name) else s
    case Some(v) =>
      if v.body.steps == [] then s
      else
        var t := Saved(s, v.name, v.body);
        if v.triggers == [] then t else Triggered(t, v.name, v.triggers)
  }

  /** `undoMacroTo`: whether every call was taken. */
  method UndoMacroTo<S(==)>(d: MacroDaemon<S>, before: Option<View<S>>, name: string) returns (ok: bool)
    modifies d
    ensures ok ==> d.store == PutBack(old(d.store), before, name)
    ensures ok ==>
      d.willing(old(d.calls)) && (before.Some? && before.value.triggers != [] ==> d.willing(old(d.calls) + 1))
    ensures !ok ==>
      d.store == old(d.store)
      || (before.Some? && d.store == Saved(old(d.store), before.value.name, before.value.body))
  {
    if before.None? {
      ok := d.Delete(name);
      return;
    }
    var v := before.value;
    ok := d.Save(v.name, v.body);
    if ok && |v.triggers| > 0 { ok := d.BindTrigger(v.name, v.triggers); }
  }

  /** The undo of a delete, taken in full, puts the whole preset back exactly when the macro has steps and the page's
      copy can lose nothing. */
  lemma DeleteThenUndo<S>(s: Store<S>, v: View<S>)
    requires Accurate(s, v)
    ensures PutBack(Deleted(s, v.name), Some(v), v.name) == s <==> v.body.steps != [] && Returns(s, v.name)
  {
    var k := Lower(v.name);
    var deleted, t := Deleted(s, v.name), Table(v.name, Sent(v.body), true);
    assert k !in deleted.tables;
    if v.body.steps != [] {
      assert deleted.tables[k := t] == s.tables[k := t];
      ChangedIff(s.tables, k, t);
      DeletedTriggers(s, v);
    }
  }

  lemma DeletedTriggers<S>(s: Store<S>, v: View<S>)
    requires Accurate(s, v)
    ensures var k := Lower(v.name);
      Rebound(s.triggers - {k}, k, v.triggers) == s.triggers <==> (k in s.triggers ==> Ordinary(s.triggers[k]))
  {
    var k := Lower(v.name);
    ReboundIff(s, v.name);
    if k in s.triggers {
      assert v.triggers[0] in Firsts(v.triggers);
      assert Rebound(s.triggers - {k}, k, v.triggers) == Rebound(s.triggers, k, v.triggers);
    }
  }

  /** The undo of a save, taken in full, puts the whole preset back exactly when the macro was new and no stray trigger
      row stood under its name, or it had steps and the page's copy can lose nothing. */
  lemma SaveThenUndo<S>(s: Store<S>, draft: View<S>, before: Option<View<S>>)
    requires draft.body.steps != []
    requires before.None? <==> !Has(s, draft.name)
    requires before.Some? ==> Accurate(s, before.value) && SameName(before.value.name, draft.name)
    ensures PutBack(Saved(s, draft.name, draft.body), before, draft.name) == s
      <==> if before.None? then Lower(draft.name) !in s.triggers
           else before.value.body.steps != [] && Returns(s, draft.name)
  {
    var k := Lower(draft.name);
    var saved := Saved(s, draft.name, draft.body);
    if before.None? {
      assert saved.tables - {k} == s.tables;
      assert k !in s.triggers ==> saved.triggers - {k} == s.triggers;
    } else {
      var v := before.value;
      var t := Table(v.name, Sent(v.body), true);
      if v.body.steps == [] {
        assert saved.tables[k].body.steps != s.tables[k].body.steps;
      } else {
        assert Saved(saved, v.name, v.body).tables == s.tables[k := t];
        ChangedIff(s.tables, k, t);
        ReboundIff(s, v.name);
        assert v.triggers != [] ==> v.triggers[0] in Firsts(v.triggers);
      }
    }
  }

  /** It happens: rename a macro that is switched off, and it runs again. */
  lemma RenameSwitchesOn()
    ensures var body := Body([1], [], None, None);
      var s := Store(map["a" := Table("a", body, false)], map["a" := [Trigger("P", [])]]);
      var t := Renaming(s, View("a", body, ["P"]), "b", Answers(true, true, true)).0;
      "b" in t.tables && t.tables["b"].enabled && KeysFor(t, "b") == ["P"]
  {
    assert Lower("a") == "a" && Lower("b") == "b";
    assert Firsts(["P"]) == ["P"];
  }

  /** It happens: delete a macro that is switched on, undo, and its gap is gone and its trigger no longer guarded. */
  lemma DeleteThenUndoLosesTheGap()
    ensures var body := Body([1], [], Some(10), Some(50));
      var s := Store(map["a" := Table("a", body, true)], map["a" := [Trigger("P", ["H"])]]);
      var t := PutBack(Deleted(s, "a"), Some(View("a", body, ["P"])), "a");
      "a" in t.tables && t.tables["a"].body == body.(gapMs := None)
      && "a" in t.triggers && t.triggers["a"] == [Trigger("P", [])]
  {
    assert Lower("a") == "a";
    assert Firsts(["P"]) == ["P"];
  }
}
