/** Stick directions written by hand, as a deflection in digits. */
module AxisNames {
  import opened Common
  import opened Names
  import Toml

  lemma DigitsAreLowercase(n: nat)
    ensures Lowercase(Toml.PrintNat(n)) && Decimal(Toml.PrintNat(n)) == Some(n) && Toml.PrintNat(n)[0] != '-'
    ensures Toml.PrintNat(n) != "min" && Toml.PrintNat(n) != "max"
  {
    Toml.PrintNatReads(n);
    assert Toml.IsDigit(Toml.PrintNat(n)[0]);
  }

  lemma PositiveValue(n: nat)
    ensures AxisValue(Toml.PrintNat(n)) == if n > 32767 then None else Some(n)
  {
    DigitsAreLowercase(n);
  }

  lemma NegativeValue(n: int)
    requires n >= 0
    ensures AxisValue("-" + Toml.PrintNat(n)) ==
      if n > 32768 then None else Some(if n == 32768 then -32767 else -n)
  {
    DigitsAreLowercase(n);
    var text := "-" + Toml.PrintNat(n);
    assert text[0] == '-' && text[1..] == Toml.PrintNat(n);
  }

  lemma AxisBase(m: Mechanism, vertical: bool)
    requires m != Dpad
    ensures var base := BaseName(m, vertical);
      IsAxisBase(base) && base != "dpad" && Lowercase(base) && '.' !in base
      && (base == "lx" || base == "ly" <==> m == LStick) && (base == "ly" || base == "ry" <==> vertical)
  {}

  lemma AxisPointsAt(m: Mechanism, vertical: bool, text: string)
    requires m != Dpad && Lowercase(text)
    ensures PointingOf(BaseName(m, vertical) + "." + text) ==
      match AxisValue(text)
      case None => None
      case Some(v) => if v == 0 then None else Some(Pointing(m, vertical, v > 0, v == -32767 || v == 32767))
  {
    AxisBase(m, vertical);
    PointingOfJoined(BaseName(m, vertical), text);
  }

  /** A deflection of a stick axis points up or right when it is positive and down or left when it is negative, at full
      deflection from 32767 on; a centred stick points nowhere, and what no axis can report is no direction. */
  lemma DeflectionPoints(m: Mechanism, vertical: bool, n: nat)
    requires m != Dpad
    ensures PointingOf(BaseName(m, vertical) + "." + Toml.PrintNat(n)) ==
      if n == 0 || n > 32767 then None else Some(Pointing(m, vertical, true, n == 32767))
    ensures PointingOf(BaseName(m, vertical) + "." + ("-" + Toml.PrintNat(n))) ==
      if n == 0 || n > 32768 then None else Some(Pointing(m, vertical, false, n >= 32767))
  {
    DigitsAreLowercase(n);
    PositiveValue(n);
    NegativeValue(n);
    AxisPointsAt(m, vertical, Toml.PrintNat(n));
    AxisPointsAt(m, vertical, "-" + Toml.PrintNat(n));
  }
}
