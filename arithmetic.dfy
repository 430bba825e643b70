/** The arithmetic extractor (`solve_math`, personal_assistant/agent.py).
    The query is lower-cased and cleaned, then four operator families are
    tried in the fixed order multiply, add, subtract, divide. A family whose
    trigger word or symbol occurs first folds every number a regular
    expression finds in the query; with fewer than two numbers it rewrites
    the query (operator words to symbols, spaces removed) and tries a split
    on the operator symbol. A family that does not answer passes the
    possibly rewritten query on. Last comes a direct evaluation of the
    query, and if that fails too a fixed "could not understand" message. */
module Arithmetic {
  import opened Text
  import opened Decimal
  import Evaluator

  /** How the source prints a numeric answer: `int(r) if r.is_integer()
      else r` (the three folds), the raw `float` (division), or the raw
      value of an evaluated expression as an `int`. */
  datatype Rendering = WholeAsInt | FloatRepr | IntRepr

  /** "The result is …" with a number, or a fixed message. */
  datatype MathReply = Number(value: real, style: Rendering) | Message(text: string)

  const DIVISION_BY_ZERO := "Error: Division by zero is not allowed."
  const NOT_UNDERSTOOD := "I couldn't understand the math problem. Please try rephrasing it."

  /** What one operator family does with the query: answer, or hand the
      (possibly rewritten) query to the next family. */
  datatype Step = Done(reply: MathReply) | Next(query: string)

  // ---------------------------------------------------------------------
  // Number extraction

  /** `re.findall(r'\d+\.?\d*', s)` converted with `float`. */
  function Numbers(s: string): seq<real>
    decreases |s|
  {
    if s == [] then []
    else if IsDigit(s[0]) then
      var lit := ScanLiteral(s);
      [lit.value] + Numbers(s[lit.length..])
    else Numbers(s[1..])
  }

  /** `re.findall(r'-?\d+\.?\d*', s)` converted with `float`: a minus sign
      directly before a literal becomes part of it. */
  function SignedNumbers(s: string): seq<real>
    decreases |s|
  {
    if s == [] then []
    else if s[0] == '-' && |s| > 1 && IsDigit(s[1]) then
      var lit := ScanLiteral(s[1..]);
      [-lit.value] + SignedNumbers(s[1 + lit.length..])
    else if IsDigit(s[0]) then
      var lit := ScanLiteral(s);
      [lit.value] + SignedNumbers(s[lit.length..])
    else SignedNumbers(s[1..])
  }

  function Product(ns: seq<real>): real {
    if ns == [] then 1.0 else Product(ns[..|ns| - 1]) * ns[|ns| - 1]
  }

  function Sum(ns: seq<real>): real {
    if ns == [] then 0.0 else Sum(ns[..|ns| - 1]) + ns[|ns| - 1]
  }

  // ---------------------------------------------------------------------
  // Triggers and rewriting

  function Clean(query: string): string {
    Strip(Replace(Replace(Replace(Lower(query), "what is", ""), "whats", ""), "calculate", ""))
  }

  predicate MultiplyTrigger(q: string) {
    Contains(q, "times") || Contains(q, "multiplied by") || Contains(q, "x")
    || Contains(q, "*") || Contains(q, "×")
  }

  predicate AddTrigger(q: string) {
    Contains(q, "plus") || Contains(q, "+") || Contains(q, "add")
  }

  predicate SubtractTrigger(q: string) {
    Contains(q, "minus") || Contains(q, "-") || Contains(q, "subtract")
  }

  predicate DivideTrigger(q: string) {
    Contains(q, "divided by") || Contains(q, "/") || Contains(q, "÷") || Contains(q, "divide")
  }

  function MultiplyRewrite(q: string): string {
    Replace(Replace(Replace(Replace(Replace(q, "times", "*"), "multiplied by", "*"), "x", "*"), "×", "*"), " ", "")
  }

  function AddRewrite(q: string): string {
    Replace(Replace(Replace(q, "plus", "+"), "add", "+"), " ", "")
  }

  function SubtractRewrite(q: string): string {
    Replace(Replace(Replace(q, "minus", "-"), "subtract", "-"), " ", "")
  }

  function DivideRewrite(q: string): string {
    Replace(Replace(Replace(Replace(q, "divided by", "/"), "÷", "/"), "divide", "/"), " ", "")
  }

  /** The split fallback of subtraction: a leading `-` stands for `0 -`. */
  function SubtractParts(q: string): seq<string> {
    if StartsWith(q, "-") then ["0"] + SplitOn(q[1..], "-") else SplitOn(q, "-")
  }

  /** The parts the addition fallback keeps: those that are digits once
      their points and minus signs are dropped. */
  function AddCandidates(parts: seq<string>): seq<string> {
    if parts == [] then []
    else
      var rest := AddCandidates(parts[1..]);
      if IsDigits(Replace(Replace(parts[0], ".", ""), "-", "")) then [parts[0]] + rest else rest
  }

  /** `[float(n) for n in parts]`, failing as a whole if one part fails. */
  function ParseAll(parts: seq<string>): (r: Option<seq<real>>)
    ensures r.Some? ==> |r.value| == |parts|
    ensures r.Some? ==> forall i :: 0 <= i < |parts| ==> ParseFloat(parts[i]) == Some(r.value[i])
    ensures r.None? <==> exists i :: 0 <= i < |parts| && ParseFloat(parts[i]).None?
  {
    if parts == [] then Some([])
    else
      match (ParseFloat(parts[0]), ParseAll(parts[1..]))
      case (Some(v), Some(vs)) =>
        ParsedCons(ParseFloat, parts, v, vs);
        Some([v] + vs)
      case (None, _) => None
      case (Some(_), None) =>
        FailureCons(ParseFloat, parts);
        None
  }

  /** The results of a conversion applied to a list, from its first result
      and those of the rest. */
  lemma {:induction false} ParsedCons<A>(f: A -> Option<real>, xs: seq<A>, v: real, vs: seq<real>)
    requires xs != [] && f(xs[0]) == Some(v) && |vs| == |xs| - 1
    requires forall i :: 0 <= i < |vs| ==> f(xs[1..][i]) == Some(vs[i])
    ensures forall i :: 0 <= i < |xs| ==> f(xs[i]) == Some(([v] + vs)[i])
  {
    forall i | 1 <= i < |xs|
      ensures f(xs[i]) == Some(([v] + vs)[i])
    {
      assert xs[i] == xs[1..][i - 1];
    }
  }

  /** A conversion failing on the rest of a list fails on the list. */
  lemma {:induction false} FailureCons<A>(f: A -> Option<real>, xs: seq<A>)
    requires xs != []
    requires exists i :: 0 <= i < |xs| - 1 && f(xs[1..][i]).None?
    ensures exists i :: 0 <= i < |xs| && f(xs[i]).None?
  {
    var i :| 0 <= i < |xs| - 1 && f(xs[1..][i]).None?;
    assert xs[i + 1] == xs[1..][i];
  }

  /** `float(parts[0])` and `float(parts[1])` both succeed. */
  predicate TwoFloats(parts: seq<string>) {
    |parts| >= 2 && ParseFloat(parts[0]).Some? && ParseFloat(parts[1]).Some?
  }

  /** `float(parts[0]) * float(parts[1])`. */
  function SplitProduct(parts: seq<string>): real
    requires TwoFloats(parts)
  {
    ParseFloat(parts[0]).value * ParseFloat(parts[1]).value
  }

  /** `float(parts[0]) - float(parts[1])`. */
  function SplitDifference(parts: seq<string>): real
    requires TwoFloats(parts)
  {
    ParseFloat(parts[0]).value - ParseFloat(parts[1]).value
  }

  /** `numbers[0] - sum(numbers[1:])`. */
  function Difference(ns: seq<real>): real
    requires ns != []
  {
    ns[0] - Sum(ns[1..])
  }

  // ---------------------------------------------------------------------
  // The four families and the last resort

  function MultiplyStep(q: string): Step {
    if !MultiplyTrigger(q) then Next(q)
    else
      var ns := Numbers(q);
      if |ns| >= 2 then Done(Number(Product(ns), WholeAsInt))
      else
        var q' := MultiplyRewrite(q);
        var parts := SplitOn(q', "*");
        if TwoFloats(parts) then
          Done(Number(SplitProduct(parts), WholeAsInt))
        else Next(q')
  }

  function AddStep(q: string): Step {
    if !AddTrigger(q) then Next(q)
    else
      var ns := Numbers(q);
      if |ns| >= 2 then Done(Number(Sum(ns), WholeAsInt))
      else
        var q' := AddRewrite(q);
        var parts := SplitOn(q', "+");
        if |parts| < 2 then Next(q')
        else match ParseAll(AddCandidates(parts))
          case Some(vs) => if |vs| >= 2 then Done(Number(Sum(vs), WholeAsInt)) else Next(q')
          case None => Next(q')
  }

  function SubtractStep(q: string): Step {
    if !SubtractTrigger(q) then Next(q)
    else
      var ns := SignedNumbers(q);
      if |ns| >= 2 then Done(Number(Difference(ns), WholeAsInt))
      else
        var q' := SubtractRewrite(q);
        var parts := SubtractParts(q');
        if TwoFloats(parts) then
          Done(Number(SplitDifference(parts), WholeAsInt))
        else Next(q')
  }

  function DivideStep(q: string): Step {
    if !DivideTrigger(q) then Next(q)
    else
      var ns := Numbers(q);
      if |ns| >= 2 then
        if ns[1] == 0.0 then Done(Message(DIVISION_BY_ZERO))
        else Done(Number(ns[0] / ns[1], FloatRepr))
      else
        var q' := DivideRewrite(q);
        var parts := SplitOn(q', "/");
        if TwoFloats(parts) then
          var a, b := ParseFloat(parts[0]).value, ParseFloat(parts[1]).value;
          if b == 0.0 then Done(Message(DIVISION_BY_ZERO)) else Done(Number(a / b, FloatRepr))
        else Next(q')
  }

  /** The text handed to the last-resort evaluation. */
  function EvalText(q: string): string {
    Replace(Replace(Replace(q, " ", ""), "x", "*"), "÷", "/")
  }

  function EvalStep(q: string): MathReply {
    match Evaluator.Eval(EvalText(q))
    case Some(n) => Number(n.value, if n.isInt then IntRepr else FloatRepr)
    case None => Message(NOT_UNDERSTOOD)
  }

  /** The whole extractor: the families in their fixed order, each seeing
      the query the previous one passed on. */
  function Solve(query: string): MathReply {
    Families(Clean(query))
  }

  /** The families tried in turn on a cleaned query. */
  function Families(q: string): MathReply {
    match MultiplyStep(q)
    case Done(r) => r
    case Next(q1) =>
      match AddStep(q1)
      case Done(r) => r
      case Next(q2) =>
        match SubtractStep(q2)
        case Done(r) => r
        case Next(q3) =>
          match DivideStep(q3)
          case Done(r) => r
          case Next(q4) => EvalStep(q4)
  }

  /** `solve_math` as the source runs it: the query variable is reassigned
      by each family's rewrite and handed on to the next family. */
  method SolveMath(query: string) returns (reply: MathReply)
    ensures reply == Solve(query)
  {
    var q := Lower(query);
    q := Replace(Replace(Replace(q, "what is", ""), "whats", ""), "calculate", "");
    q := Strip(q);
    var step := TryMultiply(q);
    if step.Done? { return step.reply; }
    step := TryAdd(step.query);
    if step.Done? { return step.reply; }
    step := TrySubtract(step.query);
    if step.Done? { return step.reply; }
    step := TryDivide(step.query);
    if step.Done? { return step.reply; }
    q := step.query;
    var value := Evaluator.Eval(EvalText(q));
    if value.Some? {
      return Number(value.value.value, if value.value.isInt then IntRepr else FloatRepr);
    }
    return Message(NOT_UNDERSTOOD);
  }

  /** The multiplication family; the product is folded in a loop. */
  method TryMultiply(query: string) returns (step: Step)
    ensures step == MultiplyStep(query)
  {
    var q := query;
    if MultiplyTrigger(q) {
      var numbers := Numbers(q);
      if |numbers| >= 2 {
        var result := 1.0;
        for k := 0 to |numbers|
          invariant result == Product(numbers[..k])
        {
          assert numbers[..k + 1][..k] == numbers[..k];
          result := result * numbers[k];
        }
        assert numbers[..|numbers|] == numbers;
        return Done(Number(result, WholeAsInt));
      }
      q := MultiplyRewrite(q);
      var parts := SplitOn(q, "*");
      if |parts| >= 2 {
        if TwoFloats(parts) {
          return Done(Number(SplitProduct(parts), WholeAsInt));
        }
      }
    }
    return Next(q);
  }

  method TryAdd(query: string) returns (step: Step)
    ensures step == AddStep(query)
  {
    var q := query;
    if AddTrigger(q) {
      var numbers := Numbers(q);
      if |numbers| >= 2 {
        return Done(Number(Sum(numbers), WholeAsInt));
      }
      q := AddRewrite(q);
      var parts := SplitOn(q, "+");
      if |parts| >= 2 {
        var values := ParseAll(AddCandidates(parts));
        if values.Some? && |values.value| >= 2 {
          return Done(Number(Sum(values.value), WholeAsInt));
        }
      }
    }
    return Next(q);
  }

  method TrySubtract(query: string) returns (step: Step)
    ensures step == SubtractStep(query)
  {
    var q := query;
    if SubtractTrigger(q) {
      var numbers := SignedNumbers(q);
      if |numbers| >= 2 {
        return Done(Number(Difference(numbers), WholeAsInt));
      }
      q := SubtractRewrite(q);
      var parts := SubtractParts(q);
      if |parts| >= 2 {
        if TwoFloats(parts) {
          return Done(Number(SplitDifference(parts), WholeAsInt));
        }
      }
    }
    return Next(q);
  }

  method TryDivide(query: string) returns (step: Step)
    ensures step == DivideStep(query)
  {
    var q := query;
    if DivideTrigger(q) {
      var numbers := Numbers(q);
      if |numbers| >= 2 {
        if numbers[1] == 0.0 {
          return Done(Message(DIVISION_BY_ZERO));
        }
        return Done(Number(numbers[0] / numbers[1], FloatRepr));
      }
      q := DivideRewrite(q);
      var parts := SplitOn(q, "/");
      if |parts| >= 2 {
        var a := ParseFloat(parts[0]);
        var b := ParseFloat(parts[1]);
        if a.Some? && b.Some? {
          if b.value == 0.0 {
            return Done(Message(DIVISION_BY_ZERO));
          }
          return Done(Number(a.value / b.value, FloatRepr));
        }
      }
    }
    return Next(q);
  }

  // ---------------------------------------------------------------------
  // Properties

  /** Multiplication is tried first: a query that triggers it and holds at
      least two numbers is answered with the product of all of them, whatever
      other operator words it holds. */
  lemma {:induction false} MultiplyFoldsAll(query: string)
    requires MultiplyTrigger(Clean(query)) && |Numbers(Clean(query))| >= 2
    ensures Solve(query) == Number(Product(Numbers(Clean(query))), WholeAsInt)
  {
  }

  /** Without a multiplication trigger, an addition trigger and two numbers
      give the sum of all of them. */
  lemma {:induction false} AddFoldsAll(query: string)
    requires !MultiplyTrigger(Clean(query))
    requires AddTrigger(Clean(query)) && |Numbers(Clean(query))| >= 2
    ensures Solve(query) == Number(Sum(Numbers(Clean(query))), WholeAsInt)
  {
  }

  /** With neither of the first two triggers, a subtraction trigger and two
      signed numbers give the first minus the sum of the rest. */
  lemma {:induction false} SubtractFoldsAll(query: string)
    requires !MultiplyTrigger(Clean(query)) && !AddTrigger(Clean(query))
    requires SubtractTrigger(Clean(query)) && |SignedNumbers(Clean(query))| >= 2
    ensures Solve(query) == Number(SignedNumbers(Clean(query))[0] - Sum(SignedNumbers(Clean(query))[1..]), WholeAsInt)
  {
    SubtractFamily(Clean(query));
  }

  lemma {:induction false} SubtractFamily(q: string)
    requires !MultiplyTrigger(q) && !AddTrigger(q)
    requires SubtractTrigger(q) && |SignedNumbers(q)| >= 2
    ensures Families(q) == Number(SignedNumbers(q)[0] - Sum(SignedNumbers(q)[1..]), WholeAsInt)
  {
  }

  /** A family whose trigger is absent passes the query on unchanged. */
  lemma {:induction false} Untriggered(q: string)
    ensures !MultiplyTrigger(q) ==> MultiplyStep(q) == Next(q)
    ensures !AddTrigger(q) ==> AddStep(q) == Next(q)
    ensures !SubtractTrigger(q) ==> SubtractStep(q) == Next(q)
    ensures !DivideTrigger(q) ==> DivideStep(q) == Next(q)
  {
  }

  /** The subtraction family, once triggered, answers with the first signed
      number minus the sum of the others whenever there are two. */
  lemma {:induction false} SubtractFold(q: string)
    requires SubtractTrigger(q) && |SignedNumbers(q)| >= 2
    ensures SubtractStep(q) == Done(Number(SignedNumbers(q)[0] - Sum(SignedNumbers(q)[1..]), WholeAsInt))
  {
  }

  /** Division by the extracted numbers uses the first two only: the answer
      is their quotient, or the division-by-zero message when the second is
      zero, whatever numbers follow. */
  lemma {:induction false} DivideUsesFirstTwo(q: string)
    requires DivideTrigger(q) && |Numbers(q)| >= 2
    ensures DivideStep(q) == Done(
      if Numbers(q)[1] == 0.0 then Message(DIVISION_BY_ZERO) else Number(Numbers(q)[0] / Numbers(q)[1], FloatRepr))
  {
  }

  /** A zero divisor on the split path gives the message too. */
  lemma {:induction false} SplitDivisionByZero(q: string)
    requires DivideTrigger(q) && |Numbers(q)| < 2
    requires TwoFloats(SplitOn(DivideRewrite(q), "/"))
    requires ParseFloat(SplitOn(DivideRewrite(q), "/")[1]).value == 0.0
    ensures DivideStep(q) == Done(Message(DIVISION_BY_ZERO))
  {
  }

  /** The only messages the extractor gives are the division-by-zero and
      the could-not-understand ones. */
  lemma {:induction false} SolveMessages(query: string)
    requires Solve(query).Message?
    ensures Solve(query).text == DIVISION_BY_ZERO || Solve(query).text == NOT_UNDERSTOOD
  {
    var q0 := Clean(query);
    FoldsGiveNumbers(q0);
    var s0 := MultiplyStep(q0);
    if s0.Next? {
      FoldsGiveNumbers(s0.query);
      var s1 := AddStep(s0.query);
      if s1.Next? {
        FoldsGiveNumbers(s1.query);
        var s2 := SubtractStep(s1.query);
        if s2.Next? {
          DivideMessage(s2.query);
        }
      }
    }
  }

  /** Multiplication, addition and subtraction answer with numbers only. */
  lemma {:induction false} FoldsGiveNumbers(q: string)
    ensures MultiplyStep(q).Done? ==> MultiplyStep(q).reply.Number?
    ensures AddStep(q).Done? ==> AddStep(q).reply.Number?
    ensures SubtractStep(q).Done? ==> SubtractStep(q).reply.Number?
  {
  }

  /** The division family's only message is the division-by-zero one. */
  lemma {:induction false} DivideMessage(q: string)
    ensures DivideStep(q).Done? && DivideStep(q).reply.Message? ==> DivideStep(q).reply.text == DIVISION_BY_ZERO
  {
  }

  /** When every family passes and the last-resort evaluation fails, the
      fixed could-not-understand message is the answer. */
  lemma {:induction false} AllFail(query: string)
    requires MultiplyStep(Clean(query)).Next?
    requires AddStep(MultiplyStep(Clean(query)).query).Next?
    requires SubtractStep(AddStep(MultiplyStep(Clean(query)).query).query).Next?
    requires DivideStep(SubtractStep(AddStep(MultiplyStep(Clean(query)).query).query).query).Next?
    requires Evaluator.Eval(EvalText(DivideStep(SubtractStep(AddStep(MultiplyStep(Clean(query)).query).query).query).query)).None?
    ensures Solve(query) == Message(NOT_UNDERSTOOD)
  {
  }

  /** `a` holds the numbers of `b`, each possibly negated. */
  predicate Mirrors(a: seq<real>, b: seq<real>) {
    |a| == |b| && forall i :: 0 <= i < |b| ==> a[i] == b[i] || a[i] == -b[i]
  }

  lemma {:induction false} MirrorsCons(x: real, y: real, a: seq<real>, b: seq<real>)
    requires Mirrors(a, b) && (x == y || x == -y)
    ensures Mirrors([x] + a, [y] + b)
  {
    forall i | 0 <= i < |b| + 1
      ensures ([x] + a)[i] == ([y] + b)[i] || ([x] + a)[i] == -([y] + b)[i]
    {
      if i > 0 {
        assert ([x] + a)[i] == a[i - 1] && ([y] + b)[i] == b[i - 1];
      }
    }
  }

  /** The signed extraction finds the same literals as the unsigned one,
      each with a minus sign when one stands directly before it. */
  lemma {:induction false} SignedNumbersMirrorNumbers(s: string)
    ensures Mirrors(SignedNumbers(s), Numbers(s))
    decreases |s|
  {
    if s == [] {
    } else if s[0] == '-' && |s| > 1 && IsDigit(s[1]) {
      var lit := ScanLiteral(s[1..]);
      var rest := s[1 + lit.length..];
      SignedNumbersMirrorNumbers(rest);
      MinusLiteral(s, lit, rest);
      MirrorsCons(-lit.value, lit.value, SignedNumbers(rest), Numbers(rest));
    } else if IsDigit(s[0]) {
      var lit := ScanLiteral(s);
      SignedNumbersMirrorNumbers(s[lit.length..]);
      MirrorsCons(lit.value, lit.value, SignedNumbers(s[lit.length..]), Numbers(s[lit.length..]));
    } else {
      SignedNumbersMirrorNumbers(s[1..]);
    }
  }

  /** A minus sign before a literal: the unsigned extraction skips the sign,
      the signed one takes it. */
  lemma {:induction false} MinusLiteral(s: string, lit: Literal, rest: string)
    requires |s| > 1 && s[0] == '-' && IsDigit(s[1])
    requires lit == ScanLiteral(s[1..]) && rest == s[1 + lit.length..]
    ensures Numbers(s) == [lit.value] + Numbers(rest)
    ensures SignedNumbers(s) == [-lit.value] + SignedNumbers(rest)
  {
    MinusSkipped(s, lit, rest);
  }

  lemma {:induction false} MinusSkipped(s: string, lit: Literal, rest: string)
    requires |s| > 1 && s[0] == '-' && IsDigit(s[1])
    requires lit == ScanLiteral(s[1..]) && rest == s[1 + lit.length..]
    ensures Numbers(s) == [lit.value] + Numbers(rest)
  {
    assert Numbers(s) == Numbers(s[1..]);
    assert s[1..][lit.length..] == rest;
  }

  /** A zero among the numbers makes their product zero. */
  lemma {:induction false} ProductWithZero(ns: seq<real>, i: nat)
    requires i < |ns| && ns[i] == 0.0
    ensures Product(ns) == 0.0
  {
    if i < |ns| - 1 {
      ProductWithZero(ns[..|ns| - 1], i);
    }
  }

  /** The sum of a concatenation is the sum of its parts. */
  lemma {:induction false} SumAppend(a: seq<real>, b: seq<real>)
    ensures Sum(a + b) == Sum(a) + Sum(b)
    decreases |b|
  {
    if b == [] {
      assert a + b == a;
    } else {
      assert (a + b)[..|a + b| - 1] == a + b[..|b| - 1];
      SumAppend(a, b[..|b| - 1]);
    }
  }

  // ---------------------------------------------------------------------
  // Worked cases: two natural numbers around an operator

  /** Cleaning leaves alone a query without capitals, without the letters
      `w` and `c` (which start the phrases it removes) and without
      surrounding space. */
  lemma {:induction false} CleanOfPlain(q: string)
    requires forall i :: 0 <= i < |q| ==> !IsUpper(q[i]) && q[i] != 'w' && q[i] != 'c'
    requires q == [] || (!IsSpace(q[0]) && !IsSpace(q[|q| - 1]))
    ensures Clean(q) == q
  {
    LowerOfLower(q);
    NotContainsChar(q, "what is", 0);
    ReplaceAbsent(q, "what is", "");
    NotContainsChar(q, "whats", 0);
    ReplaceAbsent(q, "whats", "");
    NotContainsChar(q, "calculate", 0);
    ReplaceAbsent(q, "calculate", "");
    StripOfStripped(q);
  }

  /** A query without letters triggers a family only through its symbols. */
  lemma {:induction false} SymbolTriggers(q: string)
    requires forall i :: 0 <= i < |q| ==> !IsLetter(q[i])
    ensures MultiplyTrigger(q) <==> Contains(q, "*") || Contains(q, "×")
    ensures AddTrigger(q) <==> Contains(q, "+")
    ensures SubtractTrigger(q) <==> Contains(q, "-")
    ensures DivideTrigger(q) <==> Contains(q, "/") || Contains(q, "÷")
  {
    NotContainsChar(q, "times", 0);
    NotContainsChar(q, "multiplied by", 0);
    NotContainsChar(q, "x", 0);
    NotContainsChar(q, "plus", 0);
    NotContainsChar(q, "add", 0);
    NotContainsChar(q, "minus", 0);
    NotContainsChar(q, "subtract", 0);
    NotContainsChar(q, "divided by", 0);
    NotContainsChar(q, "divide", 0);
  }

  /** Every character of "m<sep>n" is a digit or a character of `sep`. */
  lemma {:induction false} PhraseChars(m: nat, sep: string, n: nat)
    ensures forall i :: 0 <= i < |NatToString(m) + sep + NatToString(n)| ==>
      IsDigit((NatToString(m) + sep + NatToString(n))[i]) || (NatToString(m) + sep + NatToString(n))[i] in sep
  {
    var a, b := NatToString(m), NatToString(n);
    var t := a + sep + b;
    forall i | 0 <= i < |t|
      ensures IsDigit(t[i]) || t[i] in sep
    {
      if i < |a| {
        assert t[i] == a[i];
      } else if i < |a| + |sep| {
        assert t[i] == sep[i - |a|];
      } else {
        assert t[i] == b[i - |a| - |sep|];
      }
    }
  }

  /** "m<sep>n" with a separator of plain lower-case text and symbols is left
      alone by cleaning. */
  lemma {:induction false} CleanOfPhrase(m: nat, sep: string, n: nat)
    requires forall j :: 0 <= j < |sep| ==> !IsUpper(sep[j]) && sep[j] != 'w' && sep[j] != 'c'
    ensures Clean(NatToString(m) + sep + NatToString(n)) == NatToString(m) + sep + NatToString(n)
  {
    var t := NatToString(m) + sep + NatToString(n);
    PhraseChars(m, sep, n);
    assert t[0] == NatToString(m)[0];
    assert t[|t| - 1] == NatToString(n)[|NatToString(n)| - 1];
    CleanOfPlain(t);
  }

  /** A character that is neither a digit nor in `sep` is not in "m<sep>n". */
  lemma {:induction false} PhraseLacks(m: nat, sep: string, n: nat, p: string)
    requires p != [] && !IsDigit(p[0]) && p[0] !in sep
    ensures !Contains(NatToString(m) + sep + NatToString(n), p)
  {
    PhraseChars(m, sep, n);
    NotContainsChar(NatToString(m) + sep + NatToString(n), p, 0);
  }

  /** "10 / 0": a zero divisor gives the division-by-zero message. */
  lemma {:induction false} TenOverZero()
    ensures Solve("10 / 0") == Message(DIVISION_BY_ZERO)
  {
    var q := "10 / 0";
    TenOverZeroClean();
    TenOverZeroTriggers();
    TenOverZeroNumbers();
    Untriggered(q);
    DivideUsesFirstTwo(q);
  }

  lemma {:induction false} TenOverZeroClean()
    ensures Clean("10 / 0") == "10 / 0"
  {
    SmallNats();
    assert NatToString(10) + " / " + NatToString(0) == "10 / 0";
    CleanOfPhrase(10, " / ", 0);
  }

  lemma {:induction false} TenOverZeroTriggers()
    ensures !MultiplyTrigger("10 / 0") && !AddTrigger("10 / 0") && !SubtractTrigger("10 / 0")
    ensures DivideTrigger("10 / 0")
  {
    SmallNats();
    assert NatToString(10) + " / " + NatToString(0) == "10 / 0";
    DivideNatsTriggers(10, 0);
  }

  lemma {:induction false} TenOverZeroNumbers()
    ensures Numbers("10 / 0") == [10.0, 0.0]
  {
    SmallNats();
    assert NatToString(10) + " / " + NatToString(0) == "10 / 0";
    NumbersOfTwo(10, " / ", 0);
  }

  lemma {:induction false} DivideNatsTriggers(m: nat, n: nat)
    ensures var q := NatToString(m) + " / " + NatToString(n);
      !MultiplyTrigger(q) && !AddTrigger(q) && !SubtractTrigger(q) && DivideTrigger(q)
  {
    var q := NatToString(m) + " / " + NatToString(n);
    PhraseChars(m, " / ", n);
    SymbolTriggers(q);
    PhraseLacks(m, " / ", n, "*");
    PhraseLacks(m, " / ", n, "×");
    PhraseLacks(m, " / ", n, "+");
    PhraseLacks(m, " / ", n, "-");
    ContainsMiddle(NatToString(m), " / ", NatToString(n));
    ContainsAt(" / ", "/", 1);
    ContainsTransitive(q, " / ", "/");
  }

  /** "10-3": the signed extraction reads `10` and `-3`, so subtracting the
      rest from the first gives 13 where 7 was meant. */
  lemma {:induction false} TenMinusThree()
    ensures Solve("10-3") == Number(13.0, WholeAsInt)
  {
    TenMinusThreeClean();
    TenMinusThreeTriggers();
    TenMinusThreeSigned();
    SubtractFoldsAll("10-3");
  }

  lemma {:induction false} TenMinusThreeClean()
    ensures Clean("10-3") == "10-3"
  {
    SmallNats();
    assert NatToString(10) + "-" + NatToString(3) == "10-3";
    CleanOfPhrase(10, "-", 3);
  }

  lemma {:induction false} TenMinusThreeTriggers()
    ensures !MultiplyTrigger("10-3") && !AddTrigger("10-3") && SubtractTrigger("10-3")
  {
    SmallNats();
    assert NatToString(10) + "-" + NatToString(3) == "10-3";
    MinusNatsTriggers(10, 3);
  }

  lemma {:induction false} TenMinusThreeSigned()
    ensures SignedNumbers("10-3") == [10.0, -3.0]
  {
    SmallNats();
    assert NatToString(10) + "-" + NatToString(3) == "10-3";
    MinusNatsSigned(10, 3);
  }

  lemma {:induction false} MinusNatsTriggers(m: nat, n: nat)
    ensures var q := NatToString(m) + "-" + NatToString(n);
      !MultiplyTrigger(q) && !AddTrigger(q) && SubtractTrigger(q)
  {
    var q := NatToString(m) + "-" + NatToString(n);
    PhraseChars(m, "-", n);
    SymbolTriggers(q);
    PhraseLacks(m, "-", n, "*");
    PhraseLacks(m, "-", n, "×");
    PhraseLacks(m, "-", n, "+");
    ContainsMiddle(NatToString(m), "-", NatToString(n));
  }

  lemma {:induction false} MinusNatsSigned(m: nat, n: nat)
    ensures SignedNumbers(NatToString(m) + "-" + NatToString(n)) == [m as real, -(n as real)]
  {
    var b := NatToString(n);
    assert NatToString(m) + "-" + b == NatToString(m) + ("-" + b + "");
    SignedOfNegNat(n, "");
    SignedOfNat(m, "-" + b + "");
  }

  /** A natural number written out, followed by a character that continues
      no literal, is extracted as that number by the signed extraction. */
  lemma {:induction false} SignedOfNat(n: nat, rest: string)
    requires rest == [] || (!IsDigit(rest[0]) && rest[0] != '.')
    ensures SignedNumbers(NatToString(n) + rest) == [n as real] + SignedNumbers(rest)
  {
    var ds := NatToString(n);
    ScanNat(n, rest);
    assert (ds + rest)[0] == ds[0];
    assert (ds + rest)[|ds|..] == rest;
  }

  /** The same after a minus sign, which the signed extraction keeps. */
  lemma {:induction false} SignedOfNegNat(n: nat, rest: string)
    requires rest == [] || (!IsDigit(rest[0]) && rest[0] != '.')
    ensures SignedNumbers("-" + NatToString(n) + rest) == [-(n as real)] + SignedNumbers(rest)
  {
    var ds := NatToString(n);
    var t := "-" + ds + rest;
    ScanNat(n, rest);
    assert t[1..] == ds + rest;
    assert t[1] == ds[0];
    assert t[1 + |ds|..] == rest;
  }

  /** Characters that are not digits contribute no number. */
  lemma {:induction false} NumbersSkip(p: string, s: string)
    requires forall i :: 0 <= i < |p| ==> !IsDigit(p[i])
    ensures Numbers(p + s) == Numbers(s)
    decreases |p|
  {
    if p == [] {
      assert p + s == s;
    } else {
      assert (p + s)[1..] == p[1..] + s;
      NumbersSkip(p[1..], s);
    }
  }

  /** A natural number written out, followed by a character that continues
      no literal, is extracted as that number. */
  lemma {:induction false} NumbersOfNat(n: nat, rest: string)
    requires rest == [] || (!IsDigit(rest[0]) && rest[0] != '.')
    ensures Numbers(NatToString(n) + rest) == [n as real] + Numbers(rest)
  {
    var ds := NatToString(n);
    ScanNat(n, rest);
    assert (ds + rest)[|ds|..] == rest;
  }

  /** Two natural numbers written out around a separator without digits
      are the numbers extracted. */
  lemma {:induction false} NumbersOfTwo(m: nat, sep: string, n: nat)
    requires sep != [] && sep[0] != '.' && forall i :: 0 <= i < |sep| ==> !IsDigit(sep[i])
    ensures Numbers(NatToString(m) + sep + NatToString(n)) == [m as real, n as real]
  {
    var a, b := NatToString(m), NatToString(n);
    NumbersOfNat(n, "");
    assert b + "" == b;
    NumbersSkip(sep, b);
    NumbersOfNat(m, sep + b);
    assert a + sep + b == a + (sep + b);
  }

  /** "6 boxes of 7": the `x` in "boxes" triggers multiplication, and the
      two numbers are multiplied. */
  lemma {:induction false} BoxesMultiply()
    ensures Solve("6 boxes of 7") == Number(42.0, WholeAsInt)
  {
    var q := "6 boxes of 7";
    BoxesClean();
    BoxesTriggers();
    BoxesNumbers();
    MultiplyFoldsAll(q);
    ProductOfTwo(6.0, 7.0);
  }

  lemma {:induction false} BoxesClean()
    ensures Clean("6 boxes of 7") == "6 boxes of 7"
  {
    SmallNats();
    assert NatToString(6) + " boxes of " + NatToString(7) == "6 boxes of 7";
    CleanOfPhrase(6, " boxes of ", 7);
  }

  lemma {:induction false} BoxesTriggers()
    ensures MultiplyTrigger("6 boxes of 7")
  {
    SmallNats();
    assert NatToString(6) + " boxes of " + NatToString(7) == "6 boxes of 7";
    BoxesTrigger(6, 7);
  }

  lemma {:induction false} BoxesNumbers()
    ensures Numbers("6 boxes of 7") == [6.0, 7.0]
  {
    SmallNats();
    assert NatToString(6) + " boxes of " + NatToString(7) == "6 boxes of 7";
    NumbersOfTwo(6, " boxes of ", 7);
  }

  lemma {:induction false} SmallNats()
    ensures NatToString(0) == "0" && NatToString(3) == "3" && NatToString(6) == "6"
    ensures NatToString(7) == "7" && NatToString(10) == "10"
  {
  }

  lemma {:induction false} BoxesTrigger(m: nat, n: nat)
    ensures MultiplyTrigger(NatToString(m) + " boxes of " + NatToString(n))
  {
    ContainsMiddle(NatToString(m), " boxes of ", NatToString(n));
    assert " boxes of "[3..4] == "x";
    ContainsAt(" boxes of ", "x", 3);
    ContainsTransitive(NatToString(m) + " boxes of " + NatToString(n), " boxes of ", "x");
  }

  lemma {:induction false} ProductOfTwo(a: real, b: real)
    ensures Product([a, b]) == a * b
  {
    assert [a, b][..1] == [a];
    assert [a][..0] == [];
    assert Product([a]) == 1.0 * a == a;
  }
}
