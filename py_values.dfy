/** Python's `int()` applied to a string, as the SMS parser applies it to the
    `date` attribute and the API applies it (through `type=int`) to the
    amount bounds of a request. */
module PyValues {
  import opened Wrappers
  import opened Text
  import opened JsValues

  /** `str.rstrip()` on ASCII white space. */
  function TrimEnd(t: string): (u: string)
    ensures |u| <= |t| && u == t[..|u|]
    ensures |u| > 0 ==> !IsSpace(u[|u| - 1])
  {
    if |t| > 0 && IsSpace(t[|t| - 1]) then TrimEnd(t[..|t| - 1]) else t
  }

  /** `str.strip()` on ASCII white space, which `int()` applies first. */
  function Strip(t: string): string
  {
    TrimEnd(TrimStart(t))
  }

  /** The digits of a base-10 literal as `int()` accepts them: a digit first,
      and an underscore only directly before a digit. */
  predicate PyDigits(b: string) {
    && |b| > 0 && IsDigit(b[0])
    && forall i :: 0 <= i < |b| ==> IsDigit(b[i]) || (b[i] == '_' && i + 1 < |b| && IsDigit(b[i + 1]))
  }

  /** The digits with the underscores dropped. */
  function RemoveUnderscores(b: string): (d: string)
    ensures AllDigits(b) ==> d == b
  {
    if |b| == 0 then ""
    else (if b[0] == '_' then "" else [b[0]]) + RemoveUnderscores(b[1..])
  }

  /** Python's `int(t)` for a string: white space around it, an optional sign,
      then digits. `None` stands for the `ValueError` it raises. */
  function PyInt(t: string): Option<int>
  {
    Literal(Strip(t))
  }

  /** `int()` of a text already stripped of white space. */
  function Literal(u: string): Option<int>
  {
    var signed := |u| > 0 && (u[0] == '-' || u[0] == '+');
    var b := if signed then u[1..] else u;
    if !PyDigits(b) then None
    else
      var n: int := DigitsValue(RemoveUnderscores(b), 10);
      Some(if signed && u[0] == '-' then -n else n)
  }

  /** `rstrip` removes exactly the trailing white space `ws`. */
  lemma {:induction false} TrimEndOfSpaces(t: string, ws: string)
    requires forall j :: 0 <= j < |ws| ==> IsSpace(ws[j])
    requires |t| > 0 ==> !IsSpace(t[|t| - 1])
    ensures TrimEnd(t + ws) == t
  {
    if |ws| > 0 {
      assert (t + ws)[..|t + ws| - 1] == t + ws[..|ws| - 1];
      TrimEndOfSpaces(t, ws[..|ws| - 1]);
    } else {
      assert t + ws == t;
    }
  }

  /** `strip` removes exactly the white space around a text that neither
      starts nor ends with white space. */
  lemma StripOfPadded(ws1: string, x: string, ws2: string)
    requires forall j :: 0 <= j < |ws1| ==> IsSpace(ws1[j])
    requires forall j :: 0 <= j < |ws2| ==> IsSpace(ws2[j])
    requires |x| > 0 && !IsSpace(x[0]) && !IsSpace(x[|x| - 1])
    ensures Strip(ws1 + (x + ws2)) == x
  {
    assert (x + ws2)[0] == x[0];
    TrimStartOfSpaces(ws1, x + ws2);
    TrimEndOfSpaces(x, ws2);
  }

  /** The digits `str()` writes for a natural number read back as it. */
  lemma LiteralOfNatToString(m: nat)
    ensures Literal(NatToString(m)) == Some(m)
  {
    var ds := NatToString(m);
    assert ds[0] != '-' && ds[0] != '+';
    assert PyDigits(ds);
    assert RemoveUnderscores(ds) == ds;
    DigitsValueOfNatToString(m);
  }

  /** A minus sign before those digits reads back as the negative number. */
  lemma LiteralOfNegative(m: nat)
    ensures Literal("-" + NatToString(m)) == Some(-(m as int))
  {
    var ds := NatToString(m);
    var x := "-" + ds;
    assert x[1..] == ds;
    assert PyDigits(ds);
    assert RemoveUnderscores(ds) == ds;
    DigitsValueOfNatToString(m);
  }

  /** The text `str()` writes for any integer reads back as it. */
  lemma LiteralOfIntToString(n: int)
    ensures Literal(IntToString(n)) == Some(n)
  {
    if n < 0 {
      var m: nat := -n;
      LiteralOfNegative(m);
      assert IntToString(n) == "-" + NatToString(m);
    } else {
      LiteralOfNatToString(n);
    }
  }

  /** `int()` reads back any integer `str()` wrote, whatever white space
      surrounds it. */
  lemma PyIntOfIntToString(ws1: string, n: int, ws2: string)
    requires forall j :: 0 <= j < |ws1| ==> IsSpace(ws1[j])
    requires forall j :: 0 <= j < |ws2| ==> IsSpace(ws2[j])
    ensures PyInt(ws1 + (IntToString(n) + ws2)) == Some(n)
  {
    LiteralOfIntToString(n);
    IntToStringEnds(n);
    StripOfPadded(ws1, IntToString(n), ws2);
  }

  /** `str()` of an integer neither starts nor ends with white space. */
  lemma IntToStringEnds(n: int)
    ensures var x := IntToString(n);
      |x| > 0 && !IsSpace(x[0]) && !IsSpace(x[|x| - 1])
  {
    var x := IntToString(n);
    var ds := NatToString(if n < 0 then -n else n);
    assert x[|x| - 1] == ds[|ds| - 1];
  }

  /** Text with nothing but white space is not a number. */
  lemma PyIntOfBlank(t: string)
    requires forall j :: 0 <= j < |t| ==> IsSpace(t[j])
    ensures PyInt(t) == None
  {
    assert TrimStart(t) == "" by {
      TrimStartOfSpaces(t, "");
      assert t + "" == t;
    }
  }
}
