/** Decimal literals: their values, the scanner shared by the number
    extractor and the expression evaluator, and Python's `float(text)`
    restricted to plain decimal notation. */
module Decimal {
  import opened Text

  predicate AllDigits(s: string) {
    forall i :: 0 <= i < |s| ==> IsDigit(s[i])
  }

  /** The integer a run of digits denotes. */
  function NatValue(ds: string): nat
    requires AllDigits(ds)
  {
    if ds == [] then 0 else 10 * NatValue(ds[..|ds| - 1]) + DigitValue(ds[|ds| - 1])
  }

  /** The fraction `0.ds` a run of digits after a decimal point denotes. */
  function FracValue(ds: string): (f: real)
    requires AllDigits(ds)
    ensures 0.0 <= f < 1.0
  {
    if ds == [] then 0.0 else (DigitValue(ds[0]) as real + FracValue(ds[1..])) / 10.0
  }

  /** Length of the run of digits at the front of `s`. */
  function DigitRun(s: string): (n: nat)
    ensures n <= |s| && AllDigits(s[..n])
    ensures n < |s| ==> !IsDigit(s[n])
  {
    if s != [] && IsDigit(s[0]) then 1 + DigitRun(s[1..]) else 0
  }

  /** A literal scanned at the front of `s`: its length and its value. */
  datatype Literal = Literal(length: nat, value: real)

  /** The regular expression `\d+\.?\d*` matched at the front of `s`:
      the digits, then a decimal point and the digits after it when the
      point is there. */
  function ScanLiteral(s: string): (lit: Literal)
    requires s != [] && IsDigit(s[0])
    ensures 0 < lit.length <= |s|
    ensures 0.0 <= lit.value
    // the whole run of digits, then the point exactly when one follows it
    ensures 0 < DigitRun(s) <= lit.length
    ensures lit.length == DigitRun(s) <==> DigitRun(s) == |s| || s[DigitRun(s)] != '.'
    // after the point, the whole run of digits that follows
    ensures lit.length > DigitRun(s) ==>
      AllDigits(s[DigitRun(s) + 1..lit.length]) && (lit.length == |s| || !IsDigit(s[lit.length]))
  {
    var a := DigitRun(s);
    if a < |s| && s[a] == '.' then
      var b := DigitRun(s[a + 1..]);
      assert s[a + 1..][..b] == s[a + 1..a + 1 + b];
      Literal(a + 1 + b, NatValue(s[..a]) as real + FracValue(s[a + 1..a + 1 + b]))
    else
      Literal(a, NatValue(s[..a]) as real)
  }

  /** `float(text)` for plain decimal text: surrounding whitespace, an
      optional sign, then `D`, `D.`, `D.D` or `.D` where `D` is a run of
      digits. Any other text is a `ValueError`, here `None`. */
  function ParseFloat(text: string): (r: Option<real>)
    ensures r.Some? ==> Strip(text) != []
  {
    var t := Strip(text);
    if t != [] && (t[0] == '+' || t[0] == '-') then
      match ParseUnsigned(t[1..])
      case None => None
      case Some(v) => Some(if t[0] == '-' then -v else v)
    else ParseUnsigned(t)
  }

  function ParseUnsigned(t: string): (r: Option<real>)
    ensures r.Some? ==> 0.0 <= r.value
  {
    var a := DigitRun(t);
    if a == |t| then
      (if a > 0 then Some(NatValue(t[..a]) as real) else None)
    else if t[a] == '.' && DigitRun(t[a + 1..]) == |t| - a - 1 && (a > 0 || a + 1 < |t|) then
      assert t[a + 1..][..|t| - a - 1] == t[a + 1..];
      Some(NatValue(t[..a]) as real + FracValue(t[a + 1..]))
    else None
  }

  // ---------------------------------------------------------------------

  lemma {:induction false} NatValueOfAppend(ds: string, d: char)
    requires AllDigits(ds) && IsDigit(d)
    ensures AllDigits(ds + [d]) && NatValue(ds + [d]) == 10 * NatValue(ds) + DigitValue(d)
  {
    assert (ds + [d])[..|ds|] == ds;
  }

  lemma {:induction false} NatToStringDigits(n: nat)
    ensures AllDigits(NatToString(n)) && NatValue(NatToString(n)) == n
  {
    if n >= 10 {
      NatToStringDigits(n / 10);
      var d := ('0' as int + n % 10) as char;
      NatValueOfAppend(NatToString(n / 10), d);
    }
  }

  lemma {:induction false} DigitRunOfDigits(s: string)
    requires AllDigits(s)
    ensures DigitRun(s) == |s|
  {
    if s != [] {
      DigitRunOfDigits(s[1..]);
    }
  }

  /** `float(str(n)) == n`: the decimal rendering of a natural number parses
      back to that number. */
  lemma {:induction false} ParseFloatOfNat(n: nat)
    ensures ParseFloat(NatToString(n)) == Some(n as real)
  {
    var s := NatToString(n);
    NatToStringDigits(n);
    assert IsDigit(s[0]) && IsDigit(s[|s| - 1]);
    StripOfStripped(s);
    DigitRunOfDigits(s);
    assert s[..|s|] == s;
    assert ParseUnsigned(s) == Some(n as real);
  }

  /** The value of a scanned literal is `float()` of the text scanned, as
      the calculator converts each string `findall` returns. */
  lemma {:induction false} ScanLiteralIsFloat(s: string)
    requires s != [] && IsDigit(s[0])
    ensures ParseFloat(s[..ScanLiteral(s).length]) == Some(ScanLiteral(s).value)
  {
    var lit := ScanLiteral(s);
    var a := DigitRun(s);
    var t := s[..lit.length];
    assert t[0] == s[0];
    assert !IsSpace(t[|t| - 1]) by {
      assert t[|t| - 1] == s[lit.length - 1];
      if lit.length == a + 1 {
        assert s[a] == '.';
      } else if lit.length > a {
        assert s[a + 1..lit.length][lit.length - a - 2] == s[lit.length - 1];
      }
    }
    ParseFloatOfUnsigned(t);
    ScanLiteralUnsigned(s);
  }

  lemma {:induction false} ScanLiteralUnsigned(s: string)
    requires s != [] && IsDigit(s[0])
    ensures ParseUnsigned(s[..ScanLiteral(s).length]) == Some(ScanLiteral(s).value)
  {
    var lit := ScanLiteral(s);
    var a := DigitRun(s);
    var t := s[..lit.length];
    assert t[..a] == s[..a];
    if lit.length == a {
      DigitRunOfDigits(t);
      assert t[..a] == t;
    } else {
      assert t == s[..a] + t[a..];
      DigitRunPrefix(s[..a], t[a..]);
      assert t[a + 1..] == s[a + 1..lit.length];
      DigitRunOfDigits(t[a + 1..]);
    }
  }

  /** Text that starts with a digit and ends with no white space is read
      without a sign. */
  lemma {:induction false} ParseFloatOfUnsigned(t: string)
    requires t != [] && IsDigit(t[0]) && !IsSpace(t[|t| - 1])
    ensures ParseFloat(t) == ParseUnsigned(t)
  {
    assert Strip(t) == t by {
      StripOfStripped(t);
    }
    assert t[0] != '+' && t[0] != '-';
  }

  /** A run of digits followed by a non-digit is scanned exactly. */
  lemma {:induction false} DigitRunPrefix(ds: string, rest: string)
    requires AllDigits(ds)
    requires rest == [] || !IsDigit(rest[0])
    ensures DigitRun(ds + rest) == |ds|
    decreases |ds|
  {
    if ds == [] {
      assert ds + rest == rest;
    } else {
      assert (ds + rest)[1..] == ds[1..] + rest;
      DigitRunPrefix(ds[1..], rest);
    }
  }

  /** The decimal text of `n` before a character that continues no literal
      is scanned as the literal `n`. */
  lemma {:induction false} ScanNat(n: nat, rest: string)
    requires rest == [] || (!IsDigit(rest[0]) && rest[0] != '.')
    ensures ScanLiteral(NatToString(n) + rest) == Literal(|NatToString(n)|, n as real)
  {
    var ds := NatToString(n);
    NatToStringDigits(n);
    DigitRunPrefix(ds, rest);
    assert (ds + rest)[..|ds|] == ds;
  }
}
