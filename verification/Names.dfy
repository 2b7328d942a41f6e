/** Function names as the preset file spells them: where a name points, the canonical
    spelling of a direction, and the tokens of the four diagonal picks. */
module Names {
  import opened Common

  datatype Mechanism = Dpad | LStick | RStick

  datatype Diag = UL | UR | DL | DR {
    predicate Up() { UL? || UR? }
    predicate Right() { UR? || DR? }
  }

  function DiagFromHalves(up: bool, right: bool): Diag {
    if up then (if right then UR else UL) else if right then DR else DL
  }

  /** Where a name points. `positive` is right for a horizontal control and up for a vertical one;
      `exact` tells a canonical extreme from a hand-written partial deflection. */
  datatype Pointing = Pointing(mechanism: Mechanism, vertical: bool, positive: bool, exact: bool)

  // ----- text helpers

  function LowerChar(c: char): char {
    if 'A' <= c <= 'Z' then c - 'A' + 'a' else c
  }

  function Lower(s: string): (r: string)
    ensures |r| == |s|
  {
    seq(|s|, i requires 0 <= i < |s| => LowerChar(s[i]))
  }

  /** The same name, case aside. */
  predicate SameName(a: string, b: string) { Lower(a) == Lower(b) }

  // Position of the first c in s, or |s| when there is none.
  function FirstOf(s: string, c: char): (k: nat)
    ensures k <= |s|
    ensures forall i :: 0 <= i < k ==> s[i] != c
    ensures k < |s| ==> s[k] == c
  {
    if s == "" then 0 else if s[0] == c then 0 else 1 + FirstOf(s[1..], c)
  }

  lemma FirstOfJoined(a: string, c: char, b: string)
    requires c !in a
    ensures FirstOf(a + [c] + b, c) == |a|
  {
    var s := a + [c] + b;
    var k := FirstOf(s, c);
    assert s[|a|] == c;
    assert forall i :: 0 <= i < |a| ==> s[i] == a[i] && a[i] in a;
  }

  predicate StartsWith(s: string, prefix: string) {
    |prefix| <= |s| && s[..|prefix|] == prefix
  }

  // ----- where a name points (MapIsland.ts `pointing`)

  // The value of an optional minus sign followed by one or more decimal digits.
  function SignedDecimal(s: string): Option<int> {
    if s != "" && s[0] == '-' then
      match Decimal(s[1..]) case Some(n) => Some(-n) case None => None
    else Decimal(s)
  }

  function Decimal(s: string): Option<int> {
    if s == "" then None
    else if !('0' <= s[|s|-1] <= '9') then None
    else
      var digit := s[|s|-1] as int - '0' as int;
      if |s| == 1 then Some(digit)
      else match Decimal(s[..|s|-1]) case Some(n) => Some(10 * n + digit) case None => None
  }

  // The deflection an axis name spells: `min`, `max` or an i16 with its lowest value folded.
  function AxisValue(rest: string): Option<int> {
    if rest == "min" then Some(-32767)
    else if rest == "max" then Some(32767)
    else
      match SignedDecimal(rest)
      case None => None
      case Some(v) =>
        if v < -32768 || v > 32767 then None
        else if v == -32768 then Some(-32767)
        else Some(v)
  }

  function DpadPointing(rest: string): Option<Pointing> {
    if rest == "up" then Some(Pointing(Dpad, true, true, true))
    else if rest == "down" then Some(Pointing(Dpad, true, false, true))
    else if rest == "left" then Some(Pointing(Dpad, false, false, true))
    else if rest == "right" then Some(Pointing(Dpad, false, true, true))
    else None
  }

  function AxisPointing(base: string, rest: string): Option<Pointing>
    requires IsAxisBase(base)
  {
    match AxisValue(rest)
    case None => None
    case Some(value) =>
      // A centred axis is never a direction.
      if value == 0 then None
      else Some(Pointing(
        if base == "lx" || base == "ly" then LStick else RStick,
        base == "ly" || base == "ry",
        value > 0,
        value == -32767 || value == 32767))
  }

  predicate IsAxisBase(base: string) {
    base == "lx" || base == "ly" || base == "rx" || base == "ry"
  }

  function PointingAt(base: string, rest: string): Option<Pointing> {
    if base == "dpad" then DpadPointing(rest)
    else if IsAxisBase(base) then AxisPointing(base, rest)
    else None
  }

  function PointingOf(fn: string): Option<Pointing> {
    var lower := Lower(fn);
    var at := FirstOf(lower, '.');
    if at == |lower| then None else PointingAt(lower[..at], lower[at+1..])
  }

  predicate OnMechanism(fn: string, m: Mechanism) {
    PointingOf(fn).Some? && PointingOf(fn).value.mechanism == m
  }

  // Where it points, whatever it is spelled: `exact` is not compared.
  predicate PointsSameWay(fn: string, want: Pointing) {
    var p := PointingOf(fn);
    p.Some? && p.value.mechanism == want.mechanism
    && p.value.vertical == want.vertical && p.value.positive == want.positive
  }

  // The mechanism a name belongs to by its prefix alone (`mechanismOf`).
  function MechanismOf(fn: string): Option<Mechanism> {
    var f := Lower(fn);
    if StartsWith(f, "dpad.") then Some(Dpad)
    else if StartsWith(f, "lx.") || StartsWith(f, "ly.") then Some(LStick)
    else if StartsWith(f, "rx.") || StartsWith(f, "ry.") then Some(RStick)
    else None
  }

  // ----- the canonical spelling of a direction (`mechanismFunction`)

  function BaseName(m: Mechanism, vertical: bool): string {
    match m
    case Dpad => "dpad"
    case LStick => if vertical then "ly" else "lx"
    case RStick => if vertical then "ry" else "rx"
  }

  function HalfName(m: Mechanism, vertical: bool, positive: bool): string {
    if m.Dpad? then
      if vertical then (if positive then "up" else "down") else if positive then "right" else "left"
    else if positive then "max" else "min"
  }

  function MechanismFunction(m: Mechanism, vertical: bool, positive: bool): string {
    BaseName(m, vertical) + "." + HalfName(m, vertical, positive)
  }

  // What a pick of diagonal d on m stores.
  function Pair(m: Mechanism, d: Diag): seq<string> {
    [MechanismFunction(m, true, d.Up()), MechanismFunction(m, false, d.Right())]
  }

  ghost predicate Lowercase(s: string) {
    forall i :: 0 <= i < |s| ==> !('A' <= s[i] <= 'Z')
  }

  lemma LowerFixed(s: string)
    requires Lowercase(s)
    ensures Lower(s) == s
  {}

  lemma PointingOfJoined(base: string, rest: string)
    requires Lowercase(base) && Lowercase(rest) && '.' !in base
    ensures PointingOf(base + "." + rest) == PointingAt(base, rest)
  {
    var fn := base + "." + rest;
    LowerFixed(fn);
    FirstOfJoined(base, '.', rest);
    assert fn[..|base|] == base && fn[|base|+1..] == rest;
  }

  /** The canonical spelling points where it says, at full deflection. */
  lemma CanonicalPoints(m: Mechanism, vertical: bool, positive: bool)
    ensures PointingOf(MechanismFunction(m, vertical, positive)) == Some(Pointing(m, vertical, positive, true))
  {
    PointingOfJoined(BaseName(m, vertical), HalfName(m, vertical, positive));
  }

  /** A name that points somewhere belongs, by its prefix, to the mechanism it points on. */
  lemma PointsOnItsPrefix(fn: string)
    requires PointingOf(fn).Some?
    ensures MechanismOf(fn) == Some(PointingOf(fn).value.mechanism)
  {
    var lower := Lower(fn);
    var at := FirstOf(lower, '.');
    var base := lower[..at];
    assert lower[..at+1] == base + ".";
  }

  // ----- the tokens of the diagonal picks

  function MechanismToken(m: Mechanism): string {
    match m case Dpad => "dpad" case LStick => "ls" case RStick => "rs"
  }

  function DiagWord(d: Diag): string {
    match d case UL => "ul" case UR => "ur" case DL => "dl" case DR => "dr"
  }

  function DiagToken(m: Mechanism, d: Diag): string {
    "diag:" + MechanismToken(m) + ":" + DiagWord(d)
  }

  datatype Pick = Pick(mechanism: Mechanism, diag: Diag)

  function MechanismFromToken(t: string): Option<Mechanism> {
    if t == "dpad" then Some(Dpad) else if t == "ls" then Some(LStick)
    else if t == "rs" then Some(RStick) else None
  }

  function DiagFromWord(t: string): Option<Diag> {
    if t == "ul" then Some(UL) else if t == "ur" then Some(UR)
    else if t == "dl" then Some(DL) else if t == "dr" then Some(DR) else None
  }

  // `split(":")`, of which the second and third parts are read.
  function ParseDiagToken(token: string): Option<Pick> {
    if !StartsWith(token, "diag:") then None else ParseRest(token[5..])
  }

  function ParseRest(rest: string): Option<Pick> {
    var at := FirstOf(rest, ':');
    if at == |rest| then None
    else
      var tail := rest[at+1..];
      PickFrom(rest[..at], tail[..FirstOf(tail, ':')])
  }

  function PickFrom(mech: string, word: string): Option<Pick> {
    match (MechanismFromToken(mech), DiagFromWord(word))
    case (Some(m), Some(d)) => Some(Pick(m, d))
    case _ => None
  }

  lemma ParseJoined(mech: string, word: string)
    requires ':' !in mech && ':' !in word
    ensures ParseDiagToken("diag:" + mech + ":" + word) == PickFrom(mech, word)
  {
    var token, rest := "diag:" + mech + ":" + word, mech + ":" + word;
    assert token[..5] == "diag:" && token[5..] == rest;
    RestJoined(mech, word);
  }

  lemma RestJoined(mech: string, word: string)
    requires ':' !in mech && ':' !in word
    ensures ParseRest(mech + ":" + word) == PickFrom(mech, word)
  {
    var rest := mech + ":" + word;
    FirstOfJoined(mech, ':', word);
    assert rest[..|mech|] == mech && rest[|mech|+1..] == word;
    assert FirstOf(word, ':') == |word|;
  }

  /** A pick's token reads back as that pick. */
  lemma DiagTokenRoundTrip(m: Mechanism, d: Diag)
    ensures ParseDiagToken(DiagToken(m, d)) == Some(Pick(m, d))
  {
    ParseJoined(MechanismToken(m), DiagWord(d));
  }

  // The second letter of `dpad`, `lx`, `ly`, `rx` and `ry`.
  lemma SecondLetter(fn: string)
    ensures PointingOf(fn).Some? ==> |fn| > 1 && Lower(fn)[1] in ['p', 'x', 'y']
  {
    if PointingOf(fn).Some? {
      var lower := Lower(fn);
      var base := lower[..FirstOf(lower, '.')];
      assert base == "dpad" || IsAxisBase(base);
      assert base[1] == lower[1];
    }
  }

  lemma DiagLetter(token: string)
    requires StartsWith(token, "diag:")
    ensures |token| > 1 && Lower(token)[1] == 'i'
  {
    assert token[..5][1] == token[1];
  }

  /** No name that points anywhere, canonical or hand-written, reads as a pick. */
  lemma DirectionIsNoPick(fn: string)
    ensures PointingOf(fn).Some? ==> ParseDiagToken(fn) == None
  {
    if StartsWith(fn, "diag:") {
      DiagLetter(fn);
      SecondLetter(fn);
    }
  }
}
