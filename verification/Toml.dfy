/** The block the page prints for pasting, and a reader that gets the macro back out of it. */
module Toml {
  import opened Common
  import opened Names
  import opened Macros

  // ----- strings

  function Replaced(s: string, c: char, sub: string): string {
    if s == "" then "" else (if s[0] == c then sub else [s[0]]) + Replaced(s[1..], c, sub)
  }

  /** `tomlStr`: three replacements, one after another, and the quotes. */
  function TomlStr(s: string): string {
    "\"" + Replaced(Replaced(Replaced(s, '\\', "\\\\"), '"', "\\\""), '\n', "\\n") + "\""
  }

  function EscapedChar(c: char): (e: string)
    ensures |e| > 0
  {
    if c == '\\' then "\\\\" else if c == '"' then "\\\"" else if c == '\n' then "\\n" else [c]
  }

  function Escaped(s: string): string {
    if s == "" then "" else EscapedChar(s[0]) + Escaped(s[1..])
  }

  lemma {:induction false} ReplacedSplits(a: string, b: string, c: char, sub: string)
    ensures Replaced(a + b, c, sub) == Replaced(a, c, sub) + Replaced(b, c, sub)
  {
    if a == "" {
      assert a + b == b;
    } else {
      ReplacedSplits(a[1..], b, c, sub);
      assert (a + b)[1..] == a[1..] + b && (a + b)[0] == a[0];
      var head := if a[0] == c then sub else [a[0]];
      Assoc(head, Replaced(a[1..], c, sub), Replaced(b, c, sub));
    }
  }

  lemma ReplacedOne(x: char, c: char, sub: string)
    ensures Replaced([x], c, sub) == if x == c then sub else [x]
  {}

  /** The order of the three replacements is right: together they escape each character once, on its own. */
  lemma {:induction false} TomlStrEscapes(s: string)
    ensures TomlStr(s) == "\"" + Escaped(s) + "\""
  {
    ReplacedIsEscaped(s);
  }

  lemma {:induction false} ReplacedIsEscaped(s: string)
    ensures Replaced(Replaced(Replaced(s, '\\', "\\\\"), '"', "\\\""), '\n', "\\n") == Escaped(s)
  {
    if s != "" {
      var head, tail := [s[0]], s[1..];
      assert s == head + tail;
      ReplacedIsEscaped(tail);
      ReplacedSplits(head, tail, '\\', "\\\\");
      var h1, t1 := Replaced(head, '\\', "\\\\"), Replaced(tail, '\\', "\\\\");
      ReplacedSplits(h1, t1, '"', "\\\"");
      var h2, t2 := Replaced(h1, '"', "\\\""), Replaced(t1, '"', "\\\"");
      ReplacedSplits(h2, t2, '\n', "\\n");
      assert Replaced(h2, '\n', "\\n") == EscapedChar(s[0]) by {
        ReplacedOne(s[0], '\\', "\\\\");
        if s[0] == '\\' {
          Untouched("\\\\", '"', "\\\"");
          Untouched("\\\\", '\n', "\\n");
        } else {
          ReplacedOne(s[0], '"', "\\\"");
          if s[0] == '"' { Untouched("\\\"", '\n', "\\n"); } else { ReplacedOne(s[0], '\n', "\\n"); }
        }
      }
    }
  }

  lemma {:induction false} Untouched(s: string, c: char, sub: string)
    requires c !in s
    ensures Replaced(s, c, sub) == s
  {
    if s != "" {
      Untouched(s[1..], c, sub);
      assert s == [s[0]] + s[1..];
    }
  }

  /** What a piece of text was read as, and what is left of the text. */
  datatype Parse<+T> = Fail | Got(value: T, rest: string) {
    predicate IsFailure() { Fail? }
    function PropagateFailure<U>(): Parse<U>
      requires Fail?
    {
      Fail
    }
    function Extract(): (T, string)
      requires Got?
    {
      (value, rest)
    }
  }

  // The escapes of a TOML basic string that stand for one character; the printer never writes `\u` or `\U`.
  function Unescaped(c: char): Option<char> {
    if c == 'b' then Some(8 as char) else if c == 't' then Some('\t') else if c == 'n' then Some('\n')
    else if c == 'f' then Some(12 as char) else if c == 'r' then Some('\r')
    else if c == '"' then Some('"') else if c == '\\' then Some('\\') else None
  }

  /** The characters a TOML basic string may not hold as they are: every control character but the tab. */
  predicate Control(c: char) {
    var n := c as int;
    n <= 0x8 || 0xA <= n <= 0x1F || n == 0x7F
  }

  // A basic string from after its opening quote; a strict reader refuses control characters, as TOML does.
  function Scan(s: string, strict: bool): (p: Parse<string>)
    ensures p.Got? ==> |p.rest| < |s|
  {
    if s == "" then Fail
    else if s[0] == '"' then Got("", s[1..])
    else if s[0] == '\\' then
      if |s| < 2 || Unescaped(s[1]).None? then Fail
      else
        var r :- Scan(s[2..], strict);
        Got([Unescaped(s[1]).value] + r.0, r.1)
    else if strict && Control(s[0]) then Fail
    else
      var r :- Scan(s[1..], strict);
      Got([s[0]] + r.0, r.1)
  }

  predicate Raw(c: char) { Control(c) && c != '\n' }

  /** Nothing in the string is left raw by the printer and refused by TOML. */
  predicate Clean(s: string) { forall i :: 0 <= i < |s| ==> !Raw(s[i]) }

  function Consed(c: char, p: Parse<string>): Parse<string> {
    if p.Fail? then Fail else Got([c] + p.value, p.rest)
  }

  lemma ScanOne(c: char, tail: string, strict: bool)
    ensures Scan(EscapedChar(c) + tail, strict) == if strict && Raw(c) then Fail else Consed(c, Scan(tail, strict))
  {
    var text := EscapedChar(c) + tail;
    assert text[|EscapedChar(c)|..] == tail;
    assert text[0] == EscapedChar(c)[0];
    if |EscapedChar(c)| == 2 { assert text[1] == EscapedChar(c)[1]; }
  }

  lemma CleanStep(s: string)
    requires s != ""
    ensures Clean(s) <==> !Raw(s[0]) && Clean(s[1..])
  {
    assert forall i :: 0 < i < |s| ==> s[i] == s[1..][i-1];
  }

  lemma ScanEnd(rest: string, strict: bool)
    ensures Scan(Escaped("") + ("\"" + rest), strict) == Got("", rest)
  {
    var end := "\"" + rest;
    assert Escaped("") + end == end;
    assert end[1..] == rest;
  }

  lemma EscapedStep(s: string, end: string)
    requires s != ""
    ensures Escaped(s) + end == EscapedChar(s[0]) + (Escaped(s[1..]) + end)
  {}

  lemma {:induction false} ScanEscaped(s: string, rest: string, strict: bool)
    ensures Scan(Escaped(s) + ("\"" + rest), strict) == if strict && !Clean(s) then Fail else Got(s, rest)
  {
    if s == "" {
      ScanEnd(rest, strict);
    } else {
      ScanEscaped(s[1..], rest, strict);
      ScanStep(s, "\"" + rest, strict);
      CleanStep(s);
      assert s == [s[0]] + s[1..];
    }
  }

  lemma ScanStep(s: string, end: string, strict: bool)
    requires s != ""
    ensures Scan(Escaped(s) + end, strict)
         == if strict && Raw(s[0]) then Fail else Consed(s[0], Scan(Escaped(s[1..]) + end, strict))
  {
    EscapedStep(s, end);
    ScanOne(s[0], Escaped(s[1..]) + end, strict);
  }

  function ReadStr(s: string, strict: bool): (p: Parse<string>)
    ensures p.Got? ==> |p.rest| < |s|
  {
    if s == "" || s[0] != '"' then Fail else Scan(s[1..], strict)
  }

  /** A TOML reader gets a printed string back exactly when it holds no control character other than tab and
      newline: those are the ones the printer leaves as they are and TOML refuses. */
  lemma TomlReadsBackIff(s: string, rest: string)
    ensures ReadStr(TomlStr(s) + rest, true) == Got(s, rest) <==> Clean(s)
  {
    TomlStrEscapes(s);
    assert (TomlStr(s) + rest)[1..] == Escaped(s) + ("\"" + rest);
    ScanEscaped(s, rest, true);
  }

  /** Undoing the escapes gets every printed string back. */
  lemma StrReadsBack(s: string, rest: string)
    ensures ReadStr(TomlStr(s) + rest, false) == Got(s, rest)
    ensures |TomlStr(s)| > 0 && TomlStr(s)[0] == '"'
  {
    TomlStrEscapes(s);
    assert (TomlStr(s) + rest)[1..] == Escaped(s) + ("\"" + rest);
    ScanEscaped(s, rest, false);
  }

  /** It happens: a key name that holds a carriage return prints as a string TOML refuses. */
  lemma CarriageReturnIsRefused()
    ensures ReadStr(TomlStr("\r"), true).Fail?
  {
    assert TomlStr("\r") + "" == TomlStr("\r");
    TomlStrEscapes("\r");
    assert (TomlStr("\r") + "")[1..] == Escaped("\r") + ("\"" + "");
    assert Raw("\r"[0]);
    ScanEscaped("\r", "", true);
  }

  // ----- pieces of text

  predicate Starts(s: string, lit: string) { |lit| <= |s| && s[..|lit|] == lit }

  function Expect(s: string, lit: string): (p: Parse<()>) { if Starts(s, lit) then Got((), s[|lit|..]) else Fail }

  lemma ExpectThere(lit: string, rest: string)
    ensures Expect(lit + rest, lit) == Got((), rest) && Starts(lit + rest, lit)
  {
    assert (lit + rest)[..|lit|] == lit && (lit + rest)[|lit|..] == rest;
  }

  // Two texts that differ at some place do not start alike.
  lemma StartsOtherwise(s: string, lit: string, i: nat)
    requires i < |s| && i < |lit| && s[i] != lit[i]
    ensures !Starts(s, lit)
  {
    assert |lit| <= |s| ==> s[..|lit|][i] == s[i];
  }

  predicate IsDigit(c: char) { '0' <= c <= '9' }

  function PrintNat(n: nat): (s: string)
    ensures |s| > 0
  {
    var digit := (n % 10 + '0' as int) as char;
    if n < 10 then [digit] else PrintNat(n / 10) + [digit]
  }

  lemma {:induction false} PrintNatReads(n: nat)
    ensures Decimal(PrintNat(n)) == Some(n)
    ensures forall i :: 0 <= i < |PrintNat(n)| ==> IsDigit(PrintNat(n)[i])
  {
    if n >= 10 {
      PrintNatReads(n / 10);
      assert PrintNat(n)[..|PrintNat(n)|-1] == PrintNat(n / 10);
    }
  }

  function Digits(s: string): (k: nat)
    ensures k <= |s|
  {
    if s == "" || !IsDigit(s[0]) then 0 else 1 + Digits(s[1..])
  }

  lemma {:induction false} DigitsOf(d: string, rest: string)
    requires forall i :: 0 <= i < |d| ==> IsDigit(d[i])
    requires rest != "" && !IsDigit(rest[0])
    ensures Digits(d + rest) == |d|
  {
    if d == "" {
      assert d + rest == rest;
    } else {
      assert (d + rest)[1..] == d[1..] + rest;
      DigitsOf(d[1..], rest);
    }
  }

  // A number, or nothing when there is none.
  function ReadNat(s: string): (p: Parse<Option<int>>)
    ensures p.Got? ==> |p.rest| <= |s|
  {
    var k := Digits(s);
    if k == 0 then Got(None, s) else Got(Decimal(s[..k]), s[k..])
  }

  function PrintOpt(n: Option<int>): string
    requires n.Some? ==> n.value >= 0
  {
    match n case Some(v) => PrintNat(v) case None => ""
  }

  lemma NatReadsBack(n: Option<int>, rest: string)
    requires n.Some? ==> n.value >= 0
    requires rest != "" && !IsDigit(rest[0])
    ensures ReadNat(PrintOpt(n) + rest) == Got(n, rest)
  {
    var d := PrintOpt(n);
    if n.Some? { PrintNatReads(n.value); }
    DigitsOf(d, rest);
    assert (d + rest)[..|d|] == d && (d + rest)[|d|..] == rest;
    if n.None? { assert d + rest == rest; }
  }

  // `list.map(tomlStr).join(", ")`
  function Joined(items: seq<string>): string {
    if items == [] then ""
    else if |items| == 1 then TomlStr(items[0])
    else TomlStr(items[0]) + (", " + Joined(items[1..]))
  }

  function ReadItems(s: string): (p: Parse<seq<string>>)
    ensures p.Got? ==> |p.rest| <= |s|
    decreases |s|
  {
    if s == "" || s[0] != '"' then Got([], s)
    else
      var item :- ReadStr(s, false);
      if !Starts(item.1, ", ") then Got([item.0], item.1)
      else
        var more :- ReadItems(item.1[2..]);
        Got([item.0] + more.0, more.1)
  }

  lemma {:induction false} ItemsReadBack(items: seq<string>, rest: string)
    requires rest != "" && rest[0] == ']'
    ensures ReadItems(Joined(items) + rest) == Got(items, rest)
  {
    if items == [] {
      assert Joined(items) + rest == rest;
    } else if |items| == 1 {
      StrReadsBack(items[0], rest);
      StartsOtherwise(rest, ", ", 0);
      assert items == [items[0]];
    } else {
      var tail := Joined(items[1..]) + rest;
      assert Joined(items) + rest == TomlStr(items[0]) + (", " + tail);
      StrReadsBack(items[0], ", " + tail);
      ExpectThere(", ", tail);
      ItemsReadBack(items[1..], rest);
      assert items == [items[0]] + items[1..];
    }
  }

  // ----- one step

  predicate Counts(st: StepVal) {
    (st.ms.Some? ==> st.ms.value >= 0) && (st.frames.Some? ==> st.frames.value >= 0)
  }

  function LengthText(st: StepVal): string
    requires Counts(st)
  {
    if st.ms.Some? && st.frames.Some? then "ms = " + (PrintOpt(st.ms) + (", frames = " + PrintOpt(st.frames)))
    else if st.frames.Some? then "frames = " + PrintOpt(st.frames)
    else "ms = " + PrintOpt(st.ms)
  }

  function ShortText(short: bool): string { if short then ", allow_short = true" else "" }

  function StepTail(st: StepVal): string
    requires Counts(st)
  {
    "], " + (LengthText(st) + (ShortText(st.allowShort) + " },\n"))
  }

  function StepText(st: StepVal): string
    requires Counts(st)
  {
    "  { hold = [" + (Joined(st.hold) + StepTail(st))
  }

  function ReadLength(s: string): (p: Parse<(Option<int>, Option<int>)>)
    ensures p.Got? ==> |p.rest| <= |s|
  {
    if Starts(s, "ms = ") then
      var ms :- ReadNat(s[5..]);
      if Starts(ms.1, ", frames = ") then
        var frames :- ReadNat(ms.1[11..]);
        Got((ms.0, frames.0), frames.1)
      else Got((ms.0, None), ms.1)
    else if Starts(s, "frames = ") then
      var frames :- ReadNat(s[9..]);
      Got((None, frames.0), frames.1)
    else Fail
  }

  lemma LengthReadsBack(st: StepVal, rest: string)
    requires Counts(st) && rest != "" && !IsDigit(rest[0]) && !Starts(rest, ", frames = ")
    ensures ReadLength(LengthText(st) + rest) == Got((st.ms, st.frames), rest)
  {
    if st.ms.Some? && st.frames.Some? {
      var tail := PrintOpt(st.frames) + rest;
      AssocThree("ms = ", PrintOpt(st.ms), ", frames = " + PrintOpt(st.frames), rest);
      Assoc(", frames = ", PrintOpt(st.frames), rest);
      ExpectThere("ms = ", PrintOpt(st.ms) + (", frames = " + tail));
      NatReadsBack(st.ms, ", frames = " + tail);
      ExpectThere(", frames = ", tail);
      NatReadsBack(st.frames, rest);
    } else if st.frames.Some? {
      Assoc("frames = ", PrintOpt(st.frames), rest);
      ExpectThere("frames = ", PrintOpt(st.frames) + rest);
      StartsOtherwise("frames = " + (PrintOpt(st.frames) + rest), "ms = ", 0);
      NatReadsBack(st.frames, rest);
    } else {
      Assoc("ms = ", PrintOpt(st.ms), rest);
      ExpectThere("ms = ", PrintOpt(st.ms) + rest);
      NatReadsBack(st.ms, rest);
    }
  }

  function ReadShort(s: string): (p: Parse<bool>)
    ensures p.Got? ==> |p.rest| <= |s|
  {
    if Starts(s, ", allow_short = true") then Got(true, s[20..]) else Got(false, s)
  }

  function ReadStep(s: string): (p: Parse<StepVal>)
    ensures p.Got? ==> |p.rest| < |s|
  {
    var open :- Expect(s, "  { hold = [");
    var hold :- ReadItems(open.1);
    ReadStepTail(hold.0, hold.1)
  }

  function ReadStepTail(hold: seq<string>, s: string): (p: Parse<StepVal>)
    ensures p.Got? ==> |p.rest| < |s|
  {
    var close :- Expect(s, "], ");
    var length :- ReadLength(close.1);
    var short :- ReadShort(length.1);
    var end :- Expect(short.1, " },\n");
    Got(StepVal(hold, length.0.0, length.0.1, short.0), end.1)
  }

  lemma ShortReadsBack(short: bool, rest: string)
    requires rest != "" && rest[0] == ' '
    ensures ReadShort(ShortText(short) + rest) == Got(short, rest)
    ensures var text := ShortText(short) + rest; text != "" && !IsDigit(text[0]) && !Starts(text, ", frames = ")
  {
    if short {
      ExpectThere(", allow_short = true", rest);
      StartsOtherwise(", allow_short = true" + rest, ", frames = ", 2);
    } else {
      assert ShortText(short) + rest == rest;
      StartsOtherwise(rest, ", allow_short = true", 0);
      StartsOtherwise(rest, ", frames = ", 0);
    }
  }

  lemma StepTailReadsBack(st: StepVal, rest: string)
    requires Counts(st)
    ensures ReadStepTail(st.hold, StepTail(st) + rest) == Got(st, rest)
    ensures StepTail(st) + rest != "" && (StepTail(st) + rest)[0] == ']'
  {
    var end := " },\n" + rest;
    var short := ShortText(st.allowShort) + end;
    var length := LengthText(st) + short;
    AssocThree("], ", LengthText(st), ShortText(st.allowShort) + " },\n", rest);
    Assoc(ShortText(st.allowShort), " },\n", rest);
    ExpectThere("], ", length);
    ShortReadsBack(st.allowShort, end);
    LengthReadsBack(st, short);
    ExpectThere(" },\n", rest);
  }

  lemma StepReadsBack(st: StepVal, rest: string)
    requires Counts(st)
    ensures ReadStep(StepText(st) + rest) == Got(st, rest)
  {
    var hold := Joined(st.hold) + (StepTail(st) + rest);
    AssocThree("  { hold = [", Joined(st.hold), StepTail(st), rest);
    ExpectThere("  { hold = [", hold);
    StepTailReadsBack(st, rest);
    ItemsReadBack(st.hold, StepTail(st) + rest);
  }

  // ----- the block

  /** What the page holds of a macro. */
  datatype MacroView = MacroView(name: string, steps: seq<StepVal>, policy: Policy, triggers: seq<string>)

  function FieldText(key: string, value: string, default: string): string {
    if value == default then "" else key + (TomlStr(value) + "\n")
  }

  function RepeatText(again: string): string {
    if again == "" || again == "once" then "" else "repeat = " + (TomlStr(again) + "\n")
  }

  function RateText(turboHz: Option<int>, gapMs: Option<int>): string
    requires (turboHz.Some? ==> turboHz.value >= 0) && (gapMs.Some? ==> gapMs.value >= 0)
  {
    if turboHz.Some? then "turbo_hz = " + (PrintOpt(turboHz) + "\n")
    else if gapMs.Some? then "gap_ms = " + (PrintOpt(gapMs) + "\n")
    else ""
  }

  function StepsText(steps: seq<StepVal>): string
    requires forall i :: 0 <= i < |steps| ==> Counts(steps[i])
  {
    if steps == [] then "" else StepText(steps[0]) + StepsText(steps[1..])
  }

  function TriggersText(name: string, keys: seq<string>): string {
    if |keys| == 0 then
      "# macro." + (name + " = \"<KEY>\"   # no trigger yet \U{2014} bind one above, or with the line below\n")
    else if |keys| == 1 then "macro." + (name + (" = " + (TomlStr(keys[0]) + "\n")))
    else "macro." + (name + (" = [" + (Joined(keys) + "]\n")))
  }

  /** Every number the macro holds is one the printer writes as digits. */
  ghost predicate Numbers(mac: MacroView) {
    (forall i :: 0 <= i < |mac.steps| ==> Counts(mac.steps[i]))
    && (mac.policy.turboHz.Some? ==> mac.policy.turboHz.value >= 0)
    && (mac.policy.gapMs.Some? ==> mac.policy.gapMs.value >= 0)
  }

  // The block, from each of its parts on.
  ghost function FromSteps(mac: MacroView): string
    requires Numbers(mac)
  {
    "steps = [\n" + (StepsText(mac.steps) + ("]\n\n[bindings]\n" + TriggersText(mac.name, mac.triggers)))
  }

  ghost function FromRate(mac: MacroView): string
    requires Numbers(mac)
  {
    RateText(mac.policy.turboHz, mac.policy.gapMs) + FromSteps(mac)
  }

  ghost function FromRepeat(mac: MacroView): string
    requires Numbers(mac)
  {
    RepeatText(mac.policy.again) + FromRate(mac)
  }

  ghost function FromInterrupt(mac: MacroView): string
    requires Numbers(mac)
  {
    FieldText("interrupt = ", mac.policy.interrupt, "none") + FromRepeat(mac)
  }

  ghost function FromRetrigger(mac: MacroView): string
    requires Numbers(mac)
  {
    FieldText("retrigger = ", mac.policy.retrigger, "ignore") + FromInterrupt(mac)
  }

  ghost function FromRelease(mac: MacroView): string
    requires Numbers(mac)
  {
    FieldText("on_release = ", mac.policy.onRelease, "finish") + FromRetrigger(mac)
  }

  ghost function Block(mac: MacroView): string
    requires Numbers(mac)
  {
    "[macros." + (mac.name + ("]\n" + FromRelease(mac)))
  }

  lemma Assoc(a: string, b: string, c: string)
    ensures (a + b) + c == a + (b + c)
  {}

  lemma AssocThree(a: string, b: string, c: string, d: string)
    ensures (a + (b + c)) + d == a + (b + (c + d))
  {
    Assoc(a, b + c, d);
    Assoc(b, c, d);
  }

  lemma AssocFour(a: string, b: string, c: string, d: string)
    ensures a + b + c + d == a + (b + (c + d))
  {
    Assoc(a + b, c, d);
    Assoc(a, b, c + d);
  }

  lemma StepsOn(out: string, steps: seq<StepVal>, i: nat)
    requires (forall i :: 0 <= i < |steps| ==> Counts(steps[i])) && i < |steps|
    ensures out + StepsText(steps[i..]) == (out + StepText(steps[i])) + StepsText(steps[i+1..])
  {
    assert steps[i..][1..] == steps[i+1..];
    Assoc(out, StepText(steps[i]), StepsText(steps[i+1..]));
  }

  // The `for` loop over the steps.
  method PrintSteps(steps: seq<StepVal>) returns (out: string)
    requires forall i :: 0 <= i < |steps| ==> Counts(steps[i])
    ensures out == StepsText(steps)
  {
    out := "";
    var i := 0;
    while i < |steps|
      invariant 0 <= i <= |steps|
      invariant out + StepsText(steps[i..]) == StepsText(steps)
    {
      StepsOn(out, steps, i);
      out := out + StepText(steps[i]);
      i := i + 1;
    }
  }

  /** `macroTomlFor`. */
  method MacroTomlFor(mac: MacroView) returns (out: string)
    requires Numbers(mac)
    ensures out == Block(mac)
  {
    out := "[macros." + mac.name + "]\n";
    AssocFour("[macros.", mac.name, "]\n", FromRelease(mac));
    out := Append(out, FieldText("on_release = ", mac.policy.onRelease, "finish"), FromRetrigger(mac), Block(mac));
    out := Append(out, FieldText("retrigger = ", mac.policy.retrigger, "ignore"), FromInterrupt(mac), Block(mac));
    out := Append(out, FieldText("interrupt = ", mac.policy.interrupt, "none"), FromRepeat(mac), Block(mac));
    out := Append(out, RepeatText(mac.policy.again), FromRate(mac), Block(mac));
    out := Append(out, RateText(mac.policy.turboHz, mac.policy.gapMs), FromSteps(mac), Block(mac));
    var steps := PrintSteps(mac.steps);
    out := out + ("steps = [\n" + (steps + ("]\n\n[bindings]\n" + TriggersText(mac.name, mac.triggers))));
  }

  // One more part of a text of which `rest` is still to come.
  method Append(out: string, part: string, ghost rest: string, ghost whole: string) returns (more: string)
    requires out + (part + rest) == whole
    ensures more == out + part && more + rest == whole
  {
    Assoc(out, part, rest);
    more := out + part;
  }

  // ----- the reader

  function ReadField(s: string, key: string, default: string): Parse<string> {
    if !Starts(s, key) then Got(default, s)
    else
      var value :- ReadStr(s[|key|..], false);
      var end :- Expect(value.1, "\n");
      Got(value.0, end.1)
  }

  lemma FieldReadsBack(key: string, value: string, default: string, rest: string)
    requires value == default ==> !Starts(rest, key)
    ensures ReadField(FieldText(key, value, default) + rest, key, default) == Got(value, rest)
  {
    if value == default {
      assert FieldText(key, value, default) + rest == rest;
    } else {
      assert FieldText(key, value, default) + rest == key + (TomlStr(value) + ("\n" + rest));
      ExpectThere(key, TomlStr(value) + ("\n" + rest));
      StrReadsBack(value, "\n" + rest);
      ExpectThere("\n", rest);
    }
  }

  function ReadNumber(s: string, key: string): Parse<Option<int>> {
    if !Starts(s, key) then Got(None, s)
    else
      var n :- ReadNat(s[|key|..]);
      var end :- Expect(n.1, "\n");
      Got(n.0, end.1)
  }

  lemma NumberReadsBack(key: string, n: Option<int>, rest: string)
    requires n.Some? ==> n.value >= 0
    requires n.None? ==> !Starts(rest, key)
    ensures ReadNumber(if n.Some? then key + (PrintOpt(n) + ("\n" + rest)) else rest, key) == Got(n, rest)
  {
    if n.Some? {
      ExpectThere(key, PrintOpt(n) + ("\n" + rest));
      NatReadsBack(n, "\n" + rest);
      ExpectThere("\n", rest);
    }
  }

  function ReadRate(s: string): Parse<(Option<int>, Option<int>)> {
    var hz :- ReadNumber(s, "turbo_hz = ");
    if hz.0.Some? then Got((hz.0, None), hz.1)
    else
      var gap :- ReadNumber(hz.1, "gap_ms = ");
      Got((None, gap.0), gap.1)
  }

  lemma RateReadsBack(turboHz: Option<int>, gapMs: Option<int>, rest: string)
    requires (turboHz.Some? ==> turboHz.value >= 0) && (gapMs.Some? ==> gapMs.value >= 0)
    requires rest != "" && rest[0] == 's'
    ensures ReadRate(RateText(turboHz, gapMs) + rest) == Got((turboHz, if turboHz.Some? then None else gapMs), rest)
    ensures var text := RateText(turboHz, gapMs) + rest; text != "" && text[0] in ['t', 'g', 's']
  {
    var text := RateText(turboHz, gapMs) + rest;
    if turboHz.Some? {
      assert text == "turbo_hz = " + (PrintOpt(turboHz) + ("\n" + rest));
      NumberReadsBack("turbo_hz = ", turboHz, rest);
    } else if gapMs.Some? {
      assert text == "gap_ms = " + (PrintOpt(gapMs) + ("\n" + rest));
      StartsOtherwise(text, "turbo_hz = ", 0);
      NumberReadsBack("gap_ms = ", gapMs, rest);
    } else {
      assert text == rest;
      StartsOtherwise(rest, "turbo_hz = ", 0);
      StartsOtherwise(rest, "gap_ms = ", 0);
    }
  }

  function ReadSteps(s: string): (p: Parse<seq<StepVal>>)
    decreases |s|
  {
    if !Starts(s, "  { hold = [") then Got([], s)
    else
      var step :- ReadStep(s);
      var more :- ReadSteps(step.1);
      Got([step.0] + more.0, more.1)
  }

  lemma NoStepsReadBack(rest: string)
    requires rest != "" && rest[0] == ']'
    ensures ReadSteps(StepsText([]) + rest) == Got([], rest)
  {
    assert StepsText([]) + rest == rest;
    StartsOtherwise(rest, "  { hold = [", 0);
  }

  lemma FirstStepReadsBack(st: StepVal, tail: string)
    requires Counts(st) && ReadSteps(tail).Got?
    ensures ReadSteps(StepText(st) + tail) == Got([st] + ReadSteps(tail).value, ReadSteps(tail).rest)
  {
    StepReadsBack(st, tail);
    StepStarts(st, tail);
    ReadStepsOn(StepText(st) + tail, st, tail);
  }

  lemma {:induction false} StepsReadBack(steps: seq<StepVal>, rest: string)
    requires forall i :: 0 <= i < |steps| ==> Counts(steps[i])
    requires rest != "" && rest[0] == ']'
    ensures ReadSteps(StepsText(steps) + rest) == Got(steps, rest)
  {
    if steps == [] {
      NoStepsReadBack(rest);
    } else {
      StepsReadBack(steps[1..], rest);
      FirstStepReadsBack(steps[0], StepsText(steps[1..]) + rest);
      Assoc(StepText(steps[0]), StepsText(steps[1..]), rest);
      assert steps == [steps[0]] + steps[1..];
    }
  }

  lemma ReadStepsOn(text: string, st: StepVal, tail: string)
    requires Starts(text, "  { hold = [") && ReadStep(text) == Got(st, tail) && ReadSteps(tail).Got?
    ensures ReadSteps(text) == Got([st] + ReadSteps(tail).value, ReadSteps(tail).rest)
  {}

  lemma StepStarts(st: StepVal, rest: string)
    requires Counts(st)
    ensures Starts(StepText(st) + rest, "  { hold = [")
  {
    var body := Joined(st.hold) + StepTail(st);
    Assoc("  { hold = [", body, rest);
    ExpectThere("  { hold = [", body + rest);
  }

  function ReadTriggers(s: string, name: string): Parse<seq<string>> {
    if Starts(s, "# ") then Got([], "")
    else
      var head :- Expect(s, "macro.");
      var row :- Expect(head.1, name);
      var equals :- Expect(row.1, " = ");
      ReadKeys(equals.1)
  }

  // One key, or a list of them.
  function ReadKeys(s: string): Parse<seq<string>> {
    if !Starts(s, "[") then
      var one :- ReadStr(s, false);
      var end :- Expect(one.1, "\n");
      Got([one.0], end.1)
    else
      var keys :- ReadItems(s[1..]);
      var end :- Expect(keys.1, "]\n");
      Got(keys.0, end.1)
  }

  lemma TriggerRow(name: string, row: string)
    ensures ReadTriggers("macro." + (name + (" = " + row)), name) == ReadKeys(row)
  {
    StartsOtherwise("macro." + (name + (" = " + row)), "# ", 0);
    ExpectThere("macro.", name + (" = " + row));
    ExpectThere(name, " = " + row);
    ExpectThere(" = ", row);
  }

  lemma OneKeyReadsBack(key: string)
    ensures ReadKeys(TomlStr(key) + "\n") == Got([key], "")
  {
    StrReadsBack(key, "\n");
    ExpectThere("\n", "");
    assert "\n" + "" == "\n";
    StartsOtherwise(TomlStr(key) + "\n", "[", 0);
  }

  lemma KeyListReadsBack(keys: seq<string>)
    ensures ReadKeys("[" + (Joined(keys) + "]\n")) == Got(keys, "")
  {
    ExpectThere("[", Joined(keys) + "]\n");
    ExpectThere("]\n", "");
    assert "]\n" + "" == "]\n";
    ItemsReadBack(keys, "]\n");
  }

  lemma TriggerListReadsBack(name: string, keys: seq<string>)
    ensures ReadTriggers("macro." + (name + (" = [" + (Joined(keys) + "]\n"))), name) == Got(keys, "")
  {
    Bracketed(Joined(keys) + "]\n");
    TriggerRow(name, "[" + (Joined(keys) + "]\n"));
    KeyListReadsBack(keys);
  }

  lemma Bracketed(list: string)
    ensures " = [" + list == " = " + ("[" + list)
  {
    Assoc(" = ", "[", list);
  }

  lemma TriggersReadBack(name: string, keys: seq<string>)
    ensures ReadTriggers(TriggersText(name, keys), name) == Got(keys, "")
  {
    var text := TriggersText(name, keys);
    if |keys| == 0 {
      assert text[..2] == "# ";
    } else if |keys| == 1 {
      TriggerRow(name, TomlStr(keys[0]) + "\n");
      OneKeyReadsBack(keys[0]);
      assert keys == [keys[0]];
    } else {
      TriggerListReadsBack(name, keys);
    }
  }

  function NameLength(s: string): (k: nat)
    ensures k <= |s|
  {
    if s == "" || s[0] == ']' then 0 else 1 + NameLength(s[1..])
  }

  lemma {:induction false} NameReadsBack(name: string, rest: string)
    requires ']' !in name && rest != "" && rest[0] == ']'
    ensures NameLength(name + rest) == |name|
  {
    if name == "" {
      assert name + rest == rest;
    } else {
      assert (name + rest)[1..] == name[1..] + rest;
      NameReadsBack(name[1..], rest);
    }
  }

  function ReadName(s: string): Parse<string> {
    var open :- Expect(s, "[macros.");
    var k := NameLength(open.1);
    var end :- Expect(open.1[k..], "]\n");
    Got(open.1[..k], end.1)
  }

  function ReadPolicy(s: string): Parse<Policy> {
    var release :- ReadField(s, "on_release = ", "finish");
    var retrigger :- ReadField(release.1, "retrigger = ", "ignore");
    var interrupt :- ReadField(retrigger.1, "interrupt = ", "none");
    var again :- ReadField(interrupt.1, "repeat = ", "once");
    var rate :- ReadRate(again.1);
    Got(Policy(release.0, retrigger.0, interrupt.0, again.0, rate.0.0, rate.0.1, false), rate.1)
  }

  function ReadBody(s: string, name: string): Parse<(seq<StepVal>, seq<string>)> {
    var open :- Expect(s, "steps = [\n");
    var steps :- ReadSteps(open.1);
    var close :- Expect(steps.1, "]\n\n[bindings]\n");
    var keys :- ReadTriggers(close.1, name);
    Got((steps.0, keys.0), keys.1)
  }

  function Read(s: string): Option<MacroView> {
    match ReadName(s)
    case Fail => None
    case Got(name, afterName) =>
      match ReadPolicy(afterName)
      case Fail => None
      case Got(policy, afterPolicy) =>
        match ReadBody(afterPolicy, name)
        case Fail => None
        case Got(body, rest) => if rest != "" then None else Some(MacroView(name, body.0, policy, body.1))
  }

  /** What a block says: an empty `repeat` is the default, the gap is not printed beside a rate, and whether the
      macro is switched off is not printed at all. */
  function Said(mac: MacroView): MacroView {
    var p := mac.policy;
    mac.(policy := p.(again := if p.again == "" then "once" else p.again,
                      gapMs := if p.turboHz.Some? then None else p.gapMs, disabled := false))
  }

  lemma BodyReadsBack(mac: MacroView)
    requires Numbers(mac)
    ensures ReadBody(FromSteps(mac), mac.name) == Got((mac.steps, mac.triggers), "")
    ensures FromSteps(mac) != "" && FromSteps(mac)[0] == 's'
  {
    var triggers := TriggersText(mac.name, mac.triggers);
    var close := "]\n\n[bindings]\n" + triggers;
    ExpectThere("steps = [\n", StepsText(mac.steps) + close);
    StepsReadBack(mac.steps, close);
    ExpectThere("]\n\n[bindings]\n", triggers);
    TriggersReadBack(mac.name, mac.triggers);
  }

  // A field in front of a text does not make it start like another field.
  lemma FieldAvoids(key: string, value: string, default: string, rest: string, other: string, i: nat)
    requires i < |key| && i < |other| && key[i] != other[i] && !Starts(rest, other)
    ensures !Starts(FieldText(key, value, default) + rest, other)
  {
    var text := FieldText(key, value, default) + rest;
    if value == default { assert text == rest; } else { StartsOtherwise(text, other, i); }
  }

  lemma RateAvoids(mac: MacroView)
    requires Numbers(mac)
    ensures var rate := FromRate(mac);
      !Starts(rate, "repeat = ") && !Starts(rate, "interrupt = ") && !Starts(rate, "retrigger = ")
      && !Starts(rate, "on_release = ")
  {
    var rate := FromRate(mac);
    BodyReadsBack(mac);
    RateReadsBack(mac.policy.turboHz, mac.policy.gapMs, FromSteps(mac));
    StartsOtherwise(rate, "repeat = ", 0);
    StartsOtherwise(rate, "interrupt = ", 0);
    StartsOtherwise(rate, "retrigger = ", 0);
    StartsOtherwise(rate, "on_release = ", 0);
  }

  // No part of the block starts like a field that may have been left out before it.
  lemma RepeatAvoids(mac: MacroView)
    requires Numbers(mac)
    ensures var text := FromRepeat(mac);
      !Starts(text, "interrupt = ") && !Starts(text, "retrigger = ") && !Starts(text, "on_release = ")
  {
    RateAvoids(mac);
    RepeatInFront(mac.policy.again, FromRate(mac));
  }

  lemma RepeatInFront(again: string, rest: string)
    requires !Starts(rest, "interrupt = ") && !Starts(rest, "retrigger = ") && !Starts(rest, "on_release = ")
    ensures var text := RepeatText(again) + rest;
      !Starts(text, "interrupt = ") && !Starts(text, "retrigger = ") && !Starts(text, "on_release = ")
  {
    var text := RepeatText(again) + rest;
    if again == "" || again == "once" {
      assert text == rest;
    } else {
      StartsOtherwise(text, "interrupt = ", 0);
      StartsOtherwise(text, "retrigger = ", 2);
      StartsOtherwise(text, "on_release = ", 0);
    }
  }

  lemma InterruptAvoids(mac: MacroView)
    requires Numbers(mac)
    ensures !Starts(FromInterrupt(mac), "retrigger = ") && !Starts(FromInterrupt(mac), "on_release = ")
  {
    RepeatAvoids(mac);
    FieldAvoids("interrupt = ", mac.policy.interrupt, "none", FromRepeat(mac), "retrigger = ", 0);
    FieldAvoids("interrupt = ", mac.policy.interrupt, "none", FromRepeat(mac), "on_release = ", 0);
  }

  lemma PartsAvoid(mac: MacroView)
    requires Numbers(mac)
    ensures !Starts(FromRate(mac), "repeat = ") && !Starts(FromRepeat(mac), "interrupt = ")
    ensures !Starts(FromInterrupt(mac), "retrigger = ") && !Starts(FromRetrigger(mac), "on_release = ")
  {
    RateAvoids(mac);
    RepeatAvoids(mac);
    InterruptAvoids(mac);
    FieldAvoids("retrigger = ", mac.policy.retrigger, "ignore", FromInterrupt(mac), "on_release = ", 0);
  }

  lemma PolicyReadsBack(mac: MacroView)
    requires Numbers(mac)
    ensures ReadPolicy(FromRelease(mac)) == Got(Said(mac).policy, FromSteps(mac))
  {
    var p := mac.policy;
    PartsAvoid(mac);
    FieldReadsBack("on_release = ", p.onRelease, "finish", FromRetrigger(mac));
    FieldReadsBack("retrigger = ", p.retrigger, "ignore", FromInterrupt(mac));
    FieldReadsBack("interrupt = ", p.interrupt, "none", FromRepeat(mac));
    FieldReadsBack("repeat = ", Said(mac).policy.again, "once", FromRate(mac));
    BodyReadsBack(mac);
    RateReadsBack(p.turboHz, p.gapMs, FromSteps(mac));
  }

  lemma HeadReadsBack(name: string, body: string)
    requires ']' !in name
    ensures ReadName("[macros." + (name + ("]\n" + body))) == Got(name, body)
  {
    var rest := "]\n" + body;
    ExpectThere("[macros.", name + rest);
    NameReadsBack(name, rest);
    assert (name + rest)[..|name|] == name && (name + rest)[|name|..] == rest;
    ExpectThere("]\n", body);
  }

  /** The reader, which takes no text but a whole block, gets back from a printed one everything it says. */
  lemma BlockReadsBack(mac: MacroView)
    requires Numbers(mac) && ']' !in mac.name
    ensures Read(Block(mac)) == Some(Said(mac))
  {
    HeadReadsBack(mac.name, FromRelease(mac));
    PolicyReadsBack(mac);
    BodyReadsBack(mac);
  }

  /** Two macros print the same block exactly when the block says the same of both. */
  lemma BlockIsInjective(a: MacroView, b: MacroView)
    requires Numbers(a) && Numbers(b) && ']' !in a.name && ']' !in b.name
    ensures Block(a) == Block(b) <==> Said(a) == Said(b)
  {
    BlockReadsBack(a);
    BlockReadsBack(b);
    SaidPrintsTheSame(a);
    SaidPrintsTheSame(b);
  }

  lemma SaidPrintsTheSame(mac: MacroView)
    requires Numbers(mac)
    ensures Numbers(Said(mac)) && Block(Said(mac)) == Block(mac)
  {
    assert FromRate(Said(mac)) == FromRate(mac);
  }
}
