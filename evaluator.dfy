/** The last resort of the arithmetic extractor evaluates the cleaned query
    as a Python expression. This module is a restricted stand-in for that
    evaluation: decimal literals, unary `+`/`-`, the binary operators
    `+ - * /` with Python's precedence and left associativity, and
    parentheses. Every other text fails, as does a division by zero. A
    result remembers whether Python would hold it as an `int` or a `float`
    (`/` always yields a `float`; `+ - *` yield an `int` only from two
    `int`s), because the two are printed differently. */
module Evaluator {
  import opened Text
  import opened Decimal

  /** A Python number: its value and whether it is an `int`. */
  datatype Num = Num(value: real, isInt: bool)

  /** A parsed prefix: its number and the position just after it. */
  datatype Parsed = Parsed(n: Num, end: nat)

  predicate IsExprChar(c: char) {
    IsDigit(c) || c == '+' || c == '-' || c == '*' || c == '/' || c == '(' || c == ')' || c == '.'
  }

  predicate ExprChars(s: string, i: nat, j: nat)
    requires i <= j <= |s|
  {
    forall k :: i <= k < j ==> IsExprChar(s[k])
  }

  /** Apply a binary operator; `None` for a division by zero. */
  function Apply(op: char, a: Num, b: Num): (r: Option<Num>)
    requires op == '+' || op == '-' || op == '*' || op == '/'
    ensures r.None? <==> op == '/' && b.value == 0.0
    ensures r.Some? && op == '/' ==> !r.value.isInt && r.value.value * b.value == a.value
  {
    if op == '+' then Some(Num(a.value + b.value, a.isInt && b.isInt))
    else if op == '-' then Some(Num(a.value - b.value, a.isInt && b.isInt))
    else if op == '*' then Some(Num(a.value * b.value, a.isInt && b.isInt))
    else if b.value == 0.0 then None
    else Some(Num(a.value / b.value, false))
  }

  /** expr := term (('+' | '-') term)* */
  function Expr(s: string, pos: nat): (r: Option<Parsed>)
    requires pos <= |s|
    ensures r.Some? ==> pos < r.value.end <= |s| && ExprChars(s, pos, r.value.end)
    decreases |s| - pos, 3
  {
    match Term(s, pos)
    case None => None
    case Some(p) => ExprTail(s, p.n, p.end)
  }

  function ExprTail(s: string, acc: Num, pos: nat): (r: Option<Parsed>)
    requires pos <= |s|
    ensures r.Some? ==> pos <= r.value.end <= |s| && ExprChars(s, pos, r.value.end)
    decreases |s| - pos, 2
  {
    if pos < |s| && (s[pos] == '+' || s[pos] == '-') then
      match Term(s, pos + 1)
      case None => None
      case Some(p) =>
        match Apply(s[pos], acc, p.n)
        case None => None
        case Some(v) => ExprTail(s, v, p.end)
    else Some(Parsed(acc, pos))
  }

  /** term := factor (('*' | '/') factor)* */
  function Term(s: string, pos: nat): (r: Option<Parsed>)
    requires pos <= |s|
    ensures r.Some? ==> pos < r.value.end <= |s| && ExprChars(s, pos, r.value.end)
    decreases |s| - pos, 1
  {
    match Factor(s, pos)
    case None => None
    case Some(p) => TermTail(s, p.n, p.end)
  }

  function TermTail(s: string, acc: Num, pos: nat): (r: Option<Parsed>)
    requires pos <= |s|
    ensures r.Some? ==> pos <= r.value.end <= |s| && ExprChars(s, pos, r.value.end)
    decreases |s| - pos, 1
  {
    if pos < |s| && (s[pos] == '*' || s[pos] == '/') then
      match Factor(s, pos + 1)
      case None => None
      case Some(p) =>
        match Apply(s[pos], acc, p.n)
        case None => None
        case Some(v) => TermTail(s, v, p.end)
    else Some(Parsed(acc, pos))
  }

  /** factor := ('+' | '-') factor | '(' expr ')' | number */
  function Factor(s: string, pos: nat): (r: Option<Parsed>)
    requires pos <= |s|
    ensures r.Some? ==> pos < r.value.end <= |s| && ExprChars(s, pos, r.value.end)
    decreases |s| - pos, 0
  {
    if pos == |s| then None
    else if s[pos] == '+' || s[pos] == '-' then
      match Factor(s, pos + 1)
      case None => None
      case Some(p) =>
        var v := if s[pos] == '-' then -p.n.value else p.n.value;
        Some(Parsed(Num(v, p.n.isInt), p.end))
    else if s[pos] == '(' then
      match Expr(s, pos + 1)
      case None => None
      case Some(p) =>
        if p.end < |s| && s[p.end] == ')' then Some(Parsed(p.n, p.end + 1)) else None
    else Number(s, pos)
  }

  /** A Python numeric literal without exponent: `D`, `D.`, `D.D` or `.D`.
      An integer literal may not start with `0` unless it is all zeros. */
  function Number(s: string, pos: nat): (r: Option<Parsed>)
    requires pos <= |s|
    ensures r.Some? ==> pos < r.value.end <= |s| && ExprChars(s, pos, r.value.end)
  {
    var a := DigitRun(s[pos..]);
    assert s[pos..][..a] == s[pos..pos + a];
    if pos + a < |s| && s[pos + a] == '.' then
      var b := DigitRun(s[pos + a + 1..]);
      assert s[pos + a + 1..][..b] == s[pos + a + 1..pos + a + 1 + b];
      if a + b == 0 then None
      else
        var v := NatValue(s[pos..pos + a]) as real + FracValue(s[pos + a + 1..pos + a + 1 + b]);
        Some(Parsed(Num(v, false), pos + a + 1 + b))
    else if a == 0 then None
    else if a > 1 && s[pos] == '0' && NatValue(s[pos..pos + a]) != 0 then None
    else Some(Parsed(Num(NatValue(s[pos..pos + a]) as real, true), pos + a))
  }

  /** Evaluate the whole of `s`, or fail. */
  function Eval(s: string): (r: Option<Num>)
    ensures r.Some? ==> s != [] && forall k :: 0 <= k < |s| ==> IsExprChar(s[k])
  {
    match Expr(s, 0)
    case None => None
    case Some(p) => if p.end == |s| then Some(p.n) else None
  }

  // ---------------------------------------------------------------------

  /** A text holding a character outside `0-9 + - * / ( ) .` is never
      evaluated: the stand-in cannot run arbitrary code. */
  lemma {:induction false} EvalRejectsForeign(s: string, k: nat)
    requires k < |s| && !IsExprChar(s[k])
    ensures Eval(s) == None
  {
  }

  /** The text of a natural number evaluates to that number, as an `int`. */
  lemma {:induction false} EvalOfNat(n: nat)
    ensures Eval(NatToString(n)) == Some(Num(n as real, true))
  {
    var s := NatToString(n);
    NatToStringDigits(n);
    DigitRunOfDigits(s);
    assert s[0..] == s && s[0..|s|] == s;
    LeadingZero(n);
    var f := Factor(s, 0);
    assert f == Number(s, 0);
    assert f == Some(Parsed(Num(n as real, true), |s|));
    assert TermTail(s, f.value.n, |s|) == Some(Parsed(Num(n as real, true), |s|));
    assert Term(s, 0) == Some(Parsed(Num(n as real, true), |s|));
    assert ExprTail(s, Num(n as real, true), |s|) == Some(Parsed(Num(n as real, true), |s|));
    assert Expr(s, 0) == Some(Parsed(Num(n as real, true), |s|));
  }

  /** `str(n)` starts with `0` only for `n == 0`. */
  lemma {:induction false} LeadingZero(n: nat)
    ensures NatToString(n)[0] == '0' ==> n == 0
  {
    if n >= 10 {
      LeadingZero(n / 10);
      assert NatToString(n)[0] == NatToString(n / 10)[0];
    }
  }
}
