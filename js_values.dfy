/** The values a field of a decoded JSON record can hold in the browser, and
    the two JavaScript coercions the dashboard applies to them: truthiness
    (for `x || default`) and `parseInt`. */
module JsValues {
  import opened Wrappers
  import opened Text

  /** A field of a decoded record. `Missing` is `undefined` (the key is absent);
      numbers are restricted to integers, which is what the back end sends. */
  datatype Value = Missing | Null | Bool(b: bool) | Num(n: int) | Str(s: string)

  /** JavaScript truthiness: `undefined`, `null`, `false`, `0` and `""` are falsy. */
  predicate Truthy(v: Value) {
    match v
    case Missing => false
    case Null => false
    case Bool(b) => b
    case Num(n) => n != 0
    case Str(s) => s != ""
  }

  /** `v || fallback`. */
  function Or(v: Value, fallback: Value): Value {
    if Truthy(v) then v else fallback
  }

  /** `String(v)`, the text a template literal or `parseInt` sees. */
  function ToText(v: Value): string {
    match v
    case Missing => "undefined"
    case Null => "null"
    case Bool(b) => if b then "true" else "false"
    case Num(n) => IntToString(n)
    case Str(s) => s
  }

  /** Leading white space removed (the `TrimStart` step of `parseInt`). */
  function TrimStart(s: string): (r: string)
    ensures |r| <= |s| && r == s[|s| - |r|..]
    ensures forall j :: 0 <= j < |s| - |r| ==> IsSpace(s[j])
    ensures |r| > 0 ==> !IsSpace(r[0])
  {
    if |s| > 0 && IsSpace(s[0]) then TrimStart(s[1..]) else s
  }

  predicate IsRadixDigit(c: char, radix: nat) {
    if radix == 16 then IsDigit(c) || 'a' <= c <= 'f' || 'A' <= c <= 'F' else IsDigit(c)
  }

  function DigitValue(c: char): (d: nat)
    ensures IsDigit(c) ==> d == c as int - '0' as int
    ensures IsDigit(c) ==> d < 10
    ensures IsRadixDigit(c, 16) ==> d < 16
  {
    if IsDigit(c) then c as int - '0' as int
    else if 'a' <= c <= 'f' then c as int - 'a' as int + 10
    else if 'A' <= c <= 'F' then c as int - 'A' as int + 10
    else 0
  }

  /** Length of the longest prefix of `s` made of digits of the given radix. */
  function DigitRun(s: string, radix: nat): (n: nat)
    ensures n <= |s|
    ensures forall j :: 0 <= j < n ==> IsRadixDigit(s[j], radix)
    ensures n < |s| ==> !IsRadixDigit(s[n], radix)
  {
    if |s| > 0 && IsRadixDigit(s[0], radix) then 1 + DigitRun(s[1..], radix) else 0
  }

  /** The number written by `ds` in the given radix, most significant digit first. */
  function DigitsValue(ds: string, radix: nat): nat
  {
    if |ds| == 0 then 0 else DigitsValue(ds[..|ds| - 1], radix) * radix + DigitValue(ds[|ds| - 1])
  }

  /** ECMAScript `parseInt(s)` with no radix: skip leading white space, take an
      optional sign, switch to base 16 after a `0x`/`0X` prefix, and read the
      longest run of digits. `None` stands for `NaN` (no digit at all). */
  function ParseInt(s: string): Option<int>
  {
    ParseSigned(TrimStart(s))
  }

  function ParseSigned(t: string): Option<int>
  {
    if |t| > 0 && t[0] == '-' then
      match ParseUnsigned(t[1..])
      case Some(m) => Some(-m)
      case None => None
    else if |t| > 0 && t[0] == '+' then ParseUnsigned(t[1..])
    else ParseUnsigned(t)
  }

  function ParseUnsigned(u: string): Option<int>
  {
    if |u| >= 2 && u[0] == '0' && (u[1] == 'x' || u[1] == 'X') then ParseDigits(u[2..], 16)
    else ParseDigits(u, 10)
  }

  function ParseDigits(d: string, radix: nat): Option<int>
  {
    var n := DigitRun(d, radix);
    if n == 0 then None else Some(DigitsValue(d[..n], radix))
  }

  /** `parseInt(v) || 0`, the dashboard's reading of `amount` and `fee`. */
  function IntOrZero(v: Value): int {
    ParseInt(ToText(v)).GetOr(0)
  }

  /** Reading the decimal rendering of `n` gives back `n`. */
  lemma {:induction false} DigitsValueOfNatToString(n: nat)
    ensures DigitsValue(NatToString(n), 10) == n
  {
    if n >= 10 {
      var s := NatToString(n);
      assert s[..|s| - 1] == NatToString(n / 10);
      DigitsValueOfNatToString(n / 10);
    }
  }

  /** What `parseInt` reads from text that, after white space and an optional
      sign, starts with a run of decimal digits: exactly that run, signed. The
      run stops at the first non-digit, so `"1,500"` reads as 1. The one
      exception is a lone `0` followed by `x`, which starts a hexadecimal number. */
  lemma DecimalPrefix(ws: string, sign: string, ds: string, rest: string)
    requires forall j :: 0 <= j < |ws| ==> IsSpace(ws[j])
    requires sign == "" || sign == "-" || sign == "+"
    requires |ds| > 0 && AllDigits(ds)
    requires |rest| > 0 ==> !IsDigit(rest[0])
    requires !(ds == "0" && |rest| > 0 && (rest[0] == 'x' || rest[0] == 'X'))
    ensures ParseInt(ws + (sign + (ds + rest))) == Some(Signed(sign, DigitsValue(ds, 10)))
  {
    var t := sign + (ds + rest);
    SignedStartsWithoutSpace(sign, ds, rest);
    TrimStartOfSpaces(ws, t);
    SignedDecimal(sign, ds, rest);
  }

  lemma SignedStartsWithoutSpace(sign: string, ds: string, rest: string)
    requires sign == "" || sign == "-" || sign == "+"
    requires |ds| > 0 && AllDigits(ds)
    ensures var t := sign + (ds + rest); |t| > 0 && !IsSpace(t[0])
  {
    var t := sign + (ds + rest);
    assert t[0] == if sign == "" then ds[0] else sign[0];
  }

  lemma SignedDecimal(sign: string, ds: string, rest: string)
    requires sign == "" || sign == "-" || sign == "+"
    requires |ds| > 0 && AllDigits(ds)
    requires |rest| > 0 ==> !IsDigit(rest[0])
    requires !(ds == "0" && |rest| > 0 && (rest[0] == 'x' || rest[0] == 'X'))
    ensures ParseSigned(sign + (ds + rest)) == Some(Signed(sign, DigitsValue(ds, 10)))
  {
    ParseUnsignedDecimal(ds, rest);
    assert (ds + rest)[0] == ds[0];
    ParseSignedOf(sign, ds + rest);
  }

  lemma ParseUnsignedDecimal(ds: string, rest: string)
    requires |ds| > 0 && AllDigits(ds)
    requires |rest| > 0 ==> !IsDigit(rest[0])
    requires !(ds == "0" && |rest| > 0 && (rest[0] == 'x' || rest[0] == 'X'))
    ensures ParseUnsigned(ds + rest) == Some(DigitsValue(ds, 10))
  {
    var u := ds + rest;
    assert u[0] == ds[0];
    assert |ds| >= 2 ==> u[1] == ds[1];
    assert |ds| == 1 && |rest| > 0 ==> u[1] == rest[0];
    ParseDigitsOf(ds, rest, 10);
  }

  lemma ParseSignedOf(sign: string, u: string)
    requires sign == "" || sign == "-" || sign == "+"
    requires |u| > 0 && u[0] != '-' && u[0] != '+'
    requires ParseUnsigned(u).Some? && ParseUnsigned(u).value >= 0
    ensures ParseSigned(sign + u) == Some(Signed(sign, ParseUnsigned(u).value))
  {
    var t := sign + u;
    if sign != "" {
      assert t[0] == sign[0];
      assert t[1..] == u;
    } else {
      assert t == u;
    }
  }

  /** The value a sign prefix gives to a magnitude. */
  function Signed(sign: string, mag: nat): int {
    (if sign == "-" then -1 else 1) * mag
  }

  lemma ParseDigitsOf(ds: string, rest: string, radix: nat)
    requires |ds| > 0 && forall j :: 0 <= j < |ds| ==> IsRadixDigit(ds[j], radix)
    requires |rest| > 0 ==> !IsRadixDigit(rest[0], radix)
    ensures ParseDigits(ds + rest, radix) == Some(DigitsValue(ds, radix))
  {
    DigitRunOfDigits(ds, rest, radix);
    assert (ds + rest)[..|ds|] == ds;
  }

  /** `parseInt` finds no number when, after white space and an optional sign,
      the text does not start with a decimal digit; `parseInt(v) || 0` is then 0. */
  lemma NoLeadingDigit(ws: string, sign: string, rest: string)
    requires forall j :: 0 <= j < |ws| ==> IsSpace(ws[j])
    requires sign == "" || sign == "-" || sign == "+"
    requires |rest| > 0 ==> !IsDigit(rest[0]) && !IsSpace(rest[0])
    requires sign == "" && |rest| > 0 ==> rest[0] != '-' && rest[0] != '+'
    ensures ParseInt(ws + (sign + rest)) == None
  {
    var t := sign + rest;
    assert |t| > 0 ==> !IsSpace(t[0]) by {
      if |t| > 0 {
        assert t[0] == if sign == "" then rest[0] else sign[0];
      }
    }
    TrimStartOfSpaces(ws, t);
    SignedNonDigit(sign, rest);
  }

  lemma SignedNonDigit(sign: string, rest: string)
    requires sign == "" || sign == "-" || sign == "+"
    requires |rest| > 0 ==> !IsDigit(rest[0])
    requires sign == "" && |rest| > 0 ==> rest[0] != '-' && rest[0] != '+'
    ensures ParseSigned(sign + rest) == None
  {
    var t := sign + rest;
    assert ParseDigits(rest, 10) == None;
    assert ParseUnsigned(rest) == None;
    if sign != "" {
      assert t[1..] == rest;
    } else {
      assert t == rest;
    }
  }

  lemma {:induction false} TrimStartOfSpaces(ws: string, t: string)
    requires forall j :: 0 <= j < |ws| ==> IsSpace(ws[j])
    requires |t| > 0 ==> !IsSpace(t[0])
    ensures TrimStart(ws + t) == t
  {
    if |ws| > 0 {
      assert (ws + t)[1..] == ws[1..] + t;
      TrimStartOfSpaces(ws[1..], t);
    } else {
      assert ws + t == t;
    }
  }

  lemma {:induction false} DigitRunOfDigits(ds: string, rest: string, radix: nat)
    requires forall j :: 0 <= j < |ds| ==> IsRadixDigit(ds[j], radix)
    requires |rest| > 0 ==> !IsRadixDigit(rest[0], radix)
    ensures DigitRun(ds + rest, radix) == |ds|
  {
    if |ds| > 0 {
      assert (ds + rest)[1..] == ds[1..] + rest;
      DigitRunOfDigits(ds[1..], rest, radix);
    } else {
      assert ds + rest == rest;
    }
  }

  /** Round trip: `parseInt(String(n)) == n` for every integer the back end sends. */
  lemma ParseIntOfIntToString(n: int)
    ensures ParseInt(IntToString(n)) == Some(n)
    ensures IntOrZero(Num(n)) == n
  {
    var m := if n < 0 then -n else n;
    var ds := NatToString(m);
    DigitsValueOfNatToString(m);
    if n < 0 {
      DecimalPrefix("", "-", ds, "");
      assert Signed("-", m) == n;
      assert "" + ("-" + (ds + "")) == IntToString(n);
    } else {
      DecimalPrefix("", "", ds, "");
      assert "" + ("" + (ds + "")) == IntToString(n);
    }
  }

  /** A `0x` prefix switches `parseInt` to base 16. */
  lemma HexPrefix(ds: string, rest: string)
    requires |ds| > 0 && forall j :: 0 <= j < |ds| ==> IsRadixDigit(ds[j], 16)
    requires |rest| > 0 ==> !IsRadixDigit(rest[0], 16)
    ensures ParseInt("0x" + (ds + rest)) == Some(DigitsValue(ds, 16))
  {
    var u := ds + rest;
    var s := "0x" + u;
    assert s[0] == '0' && s[1] == 'x' && s[2..] == u;
    UnsignedStart(s);
    ParseDigitsOf(ds, rest, 16);
  }

  /** Text that starts with neither white space nor a sign is read unsigned. */
  lemma UnsignedStart(s: string)
    requires |s| > 0 && !IsSpace(s[0]) && s[0] != '-' && s[0] != '+'
    ensures ParseInt(s) == ParseUnsigned(s)
  {
  }
}
